/** The precedence-climbing parser of src/CodeAnalysis/Parser/Parser.ts.

    It walks an index over the token array of a submission. Looking past
    the end of the array yields the last token, which the lexer makes the
    end-of-file token. A token that is expected but absent is reported and
    replaced by a copy of the current token, without consuming anything,
    so parsing never stops early. The program loop forces one token of
    progress whenever a statement consumed nothing.

    The binary and unary precedence tables are not part of this model:
    they are the parameter `Precedences`, of which the parser needs only
    that the end-of-file token is no operator. */
module CodeAnalysisParser {

  datatype Kind =
    | EqualsToken | OpenParenthesisToken | CloseParenthesisToken | ColonToken
    | IdentifierToken | NumberToken | EndOfFileToken | Expression
    | Other(name: string)

  /** A token: its kind, its text and the line its span starts on. */
  datatype Token = Token(kind: Kind, text: string, line: nat)

  datatype Diagnostic =
    | EmptyProgram
    | TokenMissmatch(found: Kind, expected: Kind, line: nat)

  datatype Expr =
    | TokenExpr(token: Token)
    | Binary(left: Expr, op: Token, right: Expr)
    | Unary(operator: Token, operand: Expr)
    | Parenthesized(open: Token, inner: Expr, close: Token)
    | Range(from: Expr, to: Expr)
    | Cell(column: Token, row: Token)

  datatype Statement =
    | ExpressionStatement(expression: Expr)
    | CellAssignment(target: Expr, keyword: Token, value: Expr)

  datatype Program = Program(members: seq<Statement>, endOfFile: Token)

  /** The binary and unary precedence tables; 0 means "not an operator". */
  datatype Precedences = Precedences(binary: Kind -> nat, unary: Kind -> nat)

  predicate Agrees(facts: Precedences)
  {
    facts.binary(EndOfFileToken) == 0 && facts.unary(EndOfFileToken) == 0
  }

  /** The kinds of the tokens an expression was read from, in order; the
      colon of a range is consumed without being kept. */
  function ExprKinds(e: Expr): seq<Kind>
  {
    match e
    case TokenExpr(t) => [t.kind]
    case Binary(l, op, r) => ExprKinds(l) + [op.kind] + ExprKinds(r)
    case Unary(op, x) => [op.kind] + ExprKinds(x)
    case Parenthesized(o, x, c) => [o.kind] + ExprKinds(x) + [c.kind]
    case Range(l, r) => ExprKinds(l) + [ColonToken] + ExprKinds(r)
    case Cell(c, r) => [c.kind, r.kind]
  }

  function StatementKinds(s: Statement): seq<Kind>
  {
    match s
    case ExpressionStatement(e) => ExprKinds(e)
    case CellAssignment(t, k, v) => ExprKinds(t) + [k.kind] + ExprKinds(v)
  }

  function ProgramKinds(members: seq<Statement>): seq<Kind>
  {
    if members == [] then [] else ProgramKinds(members[..|members| - 1]) + StatementKinds(members[|members| - 1])
  }

  /** The kinds of the tokens from index `a` up to index `b`. */
  function KindsBetween(ts: seq<Token>, a: nat, b: nat): (r: seq<Kind>)
    requires a <= b <= |ts|
    ensures |r| == b - a
    decreases b
  {
    if a == b then [] else KindsBetween(ts, a, b - 1) + [ts[b - 1].kind]
  }

  /** The kinds of adjacent stretches join up. */
  lemma {:induction false} KindsSplit(ts: seq<Token>, a: nat, b: nat, c: nat)
    requires a <= b <= c <= |ts|
    ensures KindsBetween(ts, a, c) == KindsBetween(ts, a, b) + KindsBetween(ts, b, c)
    decreases c
  {
    if b < c {
      KindsSplit(ts, a, b, c - 1);
    }
  }

  /** The kinds read before a token, the token and the kinds read after it
      make up the kinds of the whole stretch. */
  lemma KindsAround(ts: seq<Token>, a: nat, m: nat, b: nat)
    requires a <= m < b <= |ts|
    ensures KindsBetween(ts, a, m) + [ts[m].kind] + KindsBetween(ts, m + 1, b) == KindsBetween(ts, a, b)
  {
    KindsSplit(ts, a, m, b);
    KindsSplit(ts, m, m + 1, b);
  }

  /** The kinds of a stretch that opens and closes with one token each. */
  lemma KindsEnclosed(ts: seq<Token>, a: nat, m: nat)
    requires a < m < |ts|
    ensures KindsBetween(ts, a, m + 1) == [ts[a].kind] + KindsBetween(ts, a + 1, m) + [ts[m].kind]
  {
    KindsSplit(ts, a, a + 1, m);
  }

  /** The shape precedence climbing gives a unary operand, a parenthesized
      expression or a reference: no binary operator at the top, unary
      operators nested to the right, and a range between two cells or
      tokens. */
  predicate UnaryLevel(facts: Precedences, e: Expr)
    decreases e, 0
  {
    match e
    case Binary(_, _, _) => false
    case Unary(op, x) => facts.unary(op.kind) > 0 && UnaryLevel(facts, x)
    case Parenthesized(_, x, _) => Climbed(facts, x, 0)
    case Range(l, r) => (l.Cell? || l.TokenExpr?) && (r.Cell? || r.TokenExpr?)
    case Cell(_, _) => true
    case TokenExpr(_) => true
  }

  /** The shape of what is parsed under a parent of precedence `parent`:
      every top-level operator binds tighter than the parent; an operator's
      right operand holds only operators that bind strictly tighter, and a
      binary left operand binds at least as tightly, so operators of equal
      precedence associate to the left. */
  predicate Climbed(facts: Precedences, e: Expr, parent: nat)
    decreases e, 1
  {
    match e
    case Binary(l, op, r) =>
      var q := facts.binary(op.kind);
      && q > parent
      && Climbed(facts, l, parent)
      && Climbed(facts, r, q)
      && (l.Binary? ==> facts.binary(l.op.kind) >= q)
    case _ => UnaryLevel(facts, e)
  }

  predicate WellFormed(facts: Precedences, s: Statement)
  {
    match s
    case ExpressionStatement(e) => Climbed(facts, e, 0)
    case CellAssignment(t, k, v) => k.kind == EqualsToken && Climbed(facts, t, 0) && Climbed(facts, v, 0)
  }

  /** `b` is `a` with diagnostics appended. */
  predicate Extends(a: seq<Diagnostic>, b: seq<Diagnostic>)
  {
    |a| <= |b| && b[..|a|] == a
  }

  class Parser {
    const tokens: seq<Token>
    const facts: Precedences
    var index: nat
    var diagnostics: seq<Diagnostic>

    /** The token array ends with end of file, and the index has not gone
        past it. */
    ghost predicate Valid()
      reads this
    {
      && |tokens| > 0
      && tokens[|tokens| - 1].kind == EndOfFileToken
      && Agrees(facts)
      && index < |tokens|
    }

    constructor (lexed: seq<Token>, table: Precedences, bag: seq<Diagnostic>)
      requires |lexed| > 0 && lexed[|lexed| - 1].kind == EndOfFileToken && Agrees(table)
      ensures Valid()
      ensures tokens == lexed && facts == table && index == 0 && diagnostics == bag
    {
      tokens, facts := lexed, table;
      index, diagnostics := 0, bag;
    }

    /** `PeekToken`: the token `offset` places ahead, or the last token when
        that lies past the end. */
    function Peek(offset: nat): (t: Token)
      requires |tokens| > 0
      reads this`index
      ensures index + offset < |tokens| ==> t == tokens[index + offset]
      ensures index + offset >= |tokens| ==> t == tokens[|tokens| - 1]
    {
      if index + offset > |tokens| - 1 then tokens[|tokens| - 1] else tokens[index + offset]
    }

    function Current(): Token
      requires |tokens| > 0
      reads this`index
    {
      Peek(0)
    }

    method NextToken() returns (t: Token)
      requires |tokens| > 0
      modifies this`index
      ensures t == old(Current()) && index == old(index) + 1
    {
      t := Current();
      index := index + 1;
    }

    /** `MatchToken`: whether the next tokens have the given kinds, in order;
        nothing is consumed. */
    method MatchToken(kinds: seq<Kind>) returns (r: bool)
      requires |tokens| > 0
      ensures r <==> forall j | 0 <= j < |kinds| :: Peek(j).kind == kinds[j]
    {
      var offset := 0;
      while offset < |kinds|
        invariant offset <= |kinds|
        invariant forall j | 0 <= j < offset :: Peek(j).kind == kinds[j]
      {
        if kinds[offset] != Peek(offset).kind {
          return false;
        }
        offset := offset + 1;
      }
      return true;
    }

    /** `ExpectToken`: consumes and returns the current token when it has
        the expected kind; otherwise reports the mismatch and returns a copy
        of the current token without consuming it. */
    method ExpectToken(kind: Kind) returns (t: Token)
      requires |tokens| > 0
      modifies this`index, this`diagnostics
      ensures t == old(Current())
      ensures old(Current()).kind == kind ==> index == old(index) + 1 && diagnostics == old(diagnostics)
      ensures old(Current()).kind != kind ==>
        && index == old(index)
        && diagnostics == old(diagnostics) + [TokenMissmatch(old(Current()).kind, kind, old(Current()).line)]
    {
      var matched := MatchToken([kind]);
      if matched {
        t := NextToken();
        return;
      }
      var current := Current();
      diagnostics := diagnostics + [TokenMissmatch(current.kind, kind, current.line)];
      t := Token(current.kind, current.text, current.line);
    }

    method Any() returns (r: bool)
      requires |tokens| > 0
      ensures r <==> Current().kind != EndOfFileToken
    {
      var atEnd := MatchToken([EndOfFileToken]);
      r := !atEnd;
    }

    /** `Parse`: an end-of-file first token is reported as an empty program,
        which is still parsed, to a program without members. */
    method Parse() returns (p: Program)
      requires Valid()
      modifies this`index, this`diagnostics
      ensures old(Current()).kind == EndOfFileToken ==>
        p.members == [] && diagnostics == old(diagnostics) + [EmptyProgram]
      ensures old(Current()).kind != EndOfFileToken ==> |p.members| > 0 && Extends(old(diagnostics), diagnostics)
      ensures p.endOfFile.kind == EndOfFileToken && old(index) < index <= |tokens|
      ensures forall s | s in p.members :: WellFormed(facts, s)
    {
      var any := Any();
      if !any {
        diagnostics := diagnostics + [EmptyProgram];
      }
      p := ParseProgram();
    }

    /** `ParseProgram`: statements up to end of file, which is then consumed.
        Without diagnostics the statements account for every token read. */
    method ParseProgram() returns (p: Program)
      requires Valid()
      modifies this`index, this`diagnostics
      ensures old(index) < index <= |tokens| && p.endOfFile == tokens[index - 1]
      ensures p.endOfFile.kind == EndOfFileToken
      ensures Extends(old(diagnostics), diagnostics)
      ensures old(Current()).kind == EndOfFileToken ==> p.members == [] && diagnostics == old(diagnostics)
      ensures old(Current()).kind != EndOfFileToken ==> |p.members| > 0
      ensures forall s | s in p.members :: WellFormed(facts, s)
      ensures |diagnostics| == |old(diagnostics)| ==>
        ProgramKinds(p.members) + [EndOfFileToken] == KindsBetween(tokens, old(index), index)
    {
      var members: seq<Statement> := [];
      while true
        invariant Valid() && old(index) <= index
        invariant Extends(old(diagnostics), diagnostics)
        invariant index == old(index) ==> members == [] && diagnostics == old(diagnostics)
        invariant index == old(index) || |members| > 0
        invariant old(Current()).kind == EndOfFileToken ==> index == old(index)
        invariant forall s | s in members :: WellFormed(facts, s)
        invariant |diagnostics| == |old(diagnostics)| ==> ProgramKinds(members) == KindsBetween(tokens, old(index), index)
        decreases |tokens| - index
      {
        var any := Any();
        if !any {
          break;
        }
        members := ParseMember(members, old(index), old(diagnostics));
      }
      var eof := ExpectToken(EndOfFileToken);
      p := Program(members, eof);
      KindsSplit(tokens, old(index), index - 1, index);
    }

    /** One round of the loop of `ParseProgram`: a statement is parsed and
        kept, and one token is skipped when the statement consumed none. */
    method ParseMember(members: seq<Statement>, ghost start: nat, ghost bag: seq<Diagnostic>)
      returns (grown: seq<Statement>)
      requires Valid() && start <= index && Current().kind != EndOfFileToken
      requires Extends(bag, diagnostics)
      requires forall s | s in members :: WellFormed(facts, s)
      requires |diagnostics| == |bag| ==> ProgramKinds(members) == KindsBetween(tokens, start, index)
      modifies this`index, this`diagnostics
      ensures Valid() && old(index) < index
      ensures Extends(bag, diagnostics)
      ensures |grown| == |members| + 1 && grown[..|members|] == members
      ensures forall s | s in grown :: WellFormed(facts, s)
      ensures |diagnostics| == |bag| ==> ProgramKinds(grown) == KindsBetween(tokens, start, index)
    {
      var before := index;
      var member := ParseStatement();
      ghost var read := index;
      grown := members + [member];
      assert grown[..|grown| - 1] == members;
      if index == before {
        var skipped := NextToken();
      }
      if |diagnostics| == |bag| {
        KindsSplit(tokens, start, before, read);
      }
    }

    /** `ParseStatement`: an expression, or an assignment when `=` follows. */
    method ParseStatement() returns (s: Statement)
      requires Valid()
      modifies this`index, this`diagnostics
      ensures Valid() && old(index) <= index
      ensures Extends(old(diagnostics), diagnostics)
      ensures index == old(index) ==> |diagnostics| > |old(diagnostics)|
      ensures WellFormed(facts, s)
      ensures s.ExpressionStatement? ==> Current().kind != EqualsToken
      ensures s.CellAssignment? ==> exists m | old(index) <= m < index :: tokens[m].kind == EqualsToken
      ensures |diagnostics| == |old(diagnostics)| ==> StatementKinds(s) == KindsBetween(tokens, old(index), index)
    {
      var left := ParseBinaryExpression(0);
      if Current().kind == EqualsToken {
        ghost var mid := index;
        var keyword := NextToken();
        var right := ParseBinaryExpression(0);
        s := CellAssignment(left, keyword, right);
        assert tokens[mid].kind == EqualsToken;
        if |diagnostics| == |old(diagnostics)| {
          KindsSplit(tokens, old(index), mid, mid + 1);
          KindsSplit(tokens, old(index), mid + 1, index);
        }
        return;
      }
      s := ExpressionStatement(left);
    }

    /** `ParseBinaryExpression`: operators binding tighter than `parent`,
        each with a right operand parsed at its own precedence. It stops at
        the first token that is no operator or binds no tighter than the
        parent. */
    method ParseBinaryExpression(parent: nat) returns (e: Expr)
      requires Valid()
      modifies this`index, this`diagnostics
      ensures Valid() && old(index) <= index
      ensures Extends(old(diagnostics), diagnostics)
      ensures index == old(index) ==> |diagnostics| > |old(diagnostics)|
      ensures Climbed(facts, e, parent)
      ensures facts.binary(Current().kind) == 0 || facts.binary(Current().kind) <= parent
      ensures |diagnostics| == |old(diagnostics)| ==> ExprKinds(e) == KindsBetween(tokens, old(index), index)
      decreases |tokens| - index, 6
    {
      e := ParseUnaryExpression();
      while true
        invariant Valid() && old(index) <= index
        invariant Extends(old(diagnostics), diagnostics)
        invariant index == old(index) ==> |diagnostics| > |old(diagnostics)|
        invariant Climbed(facts, e, parent)
        invariant e.Binary? ==> facts.binary(Current().kind) == 0 || facts.binary(Current().kind) <= facts.binary(e.op.kind)
        invariant |diagnostics| == |old(diagnostics)| ==> ExprKinds(e) == KindsBetween(tokens, old(index), index)
        decreases |tokens| - index
      {
        var precedence := facts.binary(Current().kind);
        if precedence == 0 || precedence <= parent {
          break;
        }
        e := ParseOperation(e, precedence, parent, old(index), old(diagnostics));
      }
    }

    /** One round of the loop of `ParseBinaryExpression`: the operator is
        consumed and its right operand parsed at the operator's precedence,
        then joined to what was parsed so far. */
    method ParseOperation(left: Expr, precedence: nat, ghost parent: nat, ghost start: nat, ghost bag: seq<Diagnostic>)
      returns (e: Expr)
      requires Valid() && start <= index
      requires precedence == facts.binary(Current().kind) && precedence > parent
      requires Extends(bag, diagnostics)
      requires Climbed(facts, left, parent)
      requires left.Binary? ==> precedence <= facts.binary(left.op.kind)
      requires |diagnostics| == |bag| ==> ExprKinds(left) == KindsBetween(tokens, start, index)
      modifies this`index, this`diagnostics
      ensures Valid() && old(index) < index
      ensures Extends(bag, diagnostics)
      ensures e.Binary? && Climbed(facts, e, parent)
      ensures facts.binary(Current().kind) == 0 || facts.binary(Current().kind) <= facts.binary(e.op.kind)
      ensures |diagnostics| == |bag| ==> ExprKinds(e) == KindsBetween(tokens, start, index)
      decreases |tokens| - index, 5
    {
      ghost var mid := index;
      var operator := NextToken();
      var right := ParseBinaryExpression(precedence);
      if |diagnostics| == |bag| {
        KindsAround(tokens, start, mid, index);
      }
      e := Binary(left, operator, right);
    }

    /** `ParseUnaryExpression`: prefix operators nest before a primary. */
    method ParseUnaryExpression() returns (e: Expr)
      requires Valid()
      modifies this`index, this`diagnostics
      ensures Valid() && old(index) <= index
      ensures Extends(old(diagnostics), diagnostics)
      ensures index == old(index) ==> |diagnostics| > |old(diagnostics)|
      ensures UnaryLevel(facts, e)
      ensures e.Unary? <==> facts.unary(old(Current()).kind) != 0
      ensures |diagnostics| == |old(diagnostics)| ==> ExprKinds(e) == KindsBetween(tokens, old(index), index)
      decreases |tokens| - index, 4
    {
      if facts.unary(Current().kind) != 0 {
        var operator := NextToken();
        var operand := ParseUnaryExpression();
        e := Unary(operator, operand);
        if |diagnostics| == |old(diagnostics)| {
          KindsSplit(tokens, old(index), old(index) + 1, index);
        }
        return;
      }
      e := ParseParenthesis();
    }

    method ParseParenthesis() returns (e: Expr)
      requires Valid()
      modifies this`index, this`diagnostics
      ensures Valid() && old(index) <= index
      ensures Extends(old(diagnostics), diagnostics)
      ensures index == old(index) ==> |diagnostics| > |old(diagnostics)|
      ensures UnaryLevel(facts, e) && !e.Unary?
      ensures e.Parenthesized? <==> old(Current()).kind == OpenParenthesisToken
      ensures e.Parenthesized? ==> e.open == old(Current())
      ensures e.Parenthesized? && e.close.kind != CloseParenthesisToken ==> |diagnostics| > |old(diagnostics)|
      ensures |diagnostics| == |old(diagnostics)| ==> ExprKinds(e) == KindsBetween(tokens, old(index), index)
      decreases |tokens| - index, 3
    {
      var open := MatchToken([OpenParenthesisToken]);
      if open {
        var left := NextToken();
        var inner := ParseBinaryExpression(0);
        ghost var mid := index;
        var right := ExpectToken(CloseParenthesisToken);
        e := Parenthesized(left, inner, right);
        if |diagnostics| == |old(diagnostics)| {
          KindsEnclosed(tokens, old(index), mid);
        }
        return;
      }
      e := ParseRangeReference();
    }

    method ParseRangeReference() returns (e: Expr)
      requires Valid()
      modifies this`index, this`diagnostics
      ensures Valid() && old(index) <= index
      ensures Extends(old(diagnostics), diagnostics)
      ensures index == old(index) ==> |diagnostics| > |old(diagnostics)|
      ensures UnaryLevel(facts, e)
      ensures e.Range? || e.Cell? || e.TokenExpr?
      ensures !e.Range? ==> Current().kind != ColonToken
      ensures e.Range? ==> exists m | old(index) <= m < index :: tokens[m].kind == ColonToken
      ensures var left := if e.Range? then e.from else e;
        left.Cell? <==> old(Peek(0)).kind == IdentifierToken && old(Peek(1)).kind == NumberToken
      ensures |diagnostics| == |old(diagnostics)| ==> ExprKinds(e) == KindsBetween(tokens, old(index), index)
      decreases |tokens| - index, 2
    {
      var left := ParseCellReference();
      var colon := MatchToken([ColonToken]);
      if colon {
        ghost var mid := index;
        var skipped := NextToken();
        var right := ParseCellReference();
        e := Range(left, right);
        assert tokens[mid].kind == ColonToken;
        if |diagnostics| == |old(diagnostics)| {
          KindsSplit(tokens, old(index), mid, mid + 1);
          KindsSplit(tokens, old(index), mid + 1, index);
        }
        return;
      }
      e := left;
    }

    /** `ParseCellReference`: an identifier followed by a number is a cell. */
    method ParseCellReference() returns (e: Expr)
      requires Valid()
      modifies this`index, this`diagnostics
      ensures Valid() && old(index) <= index
      ensures Extends(old(diagnostics), diagnostics)
      ensures index == old(index) ==> |diagnostics| > |old(diagnostics)|
      ensures e.Cell? || e.TokenExpr?
      ensures e.Cell? <==> old(Peek(0)).kind == IdentifierToken && old(Peek(1)).kind == NumberToken
      ensures e.Cell? ==> e == Cell(old(Peek(0)), old(Peek(1))) && index == old(index) + 2 && diagnostics == old(diagnostics)
      ensures e.TokenExpr? ==> e.token == old(Current())
      ensures |diagnostics| == |old(diagnostics)| ==> ExprKinds(e) == KindsBetween(tokens, old(index), index)
      decreases |tokens| - index, 1
    {
      var cell := MatchToken([IdentifierToken, NumberToken]);
      if cell {
        assert Peek(1).kind == NumberToken;
        var column := NextToken();
        var row := NextToken();
        e := Cell(column, row);
        return;
      }
      e := ParseLiteral();
    }

    /** `ParseLiteral`: an identifier or a number; anything else is reported
        as a missing expression. */
    method ParseLiteral() returns (e: Expr)
      requires Valid()
      modifies this`index, this`diagnostics
      ensures Valid() && old(index) <= index
      ensures Extends(old(diagnostics), diagnostics)
      ensures index == old(index) ==> |diagnostics| > |old(diagnostics)|
      ensures e.TokenExpr? && e.token == old(Current())
      ensures old(Current()).kind in {IdentifierToken, NumberToken, Expression} ==>
        index == old(index) + 1 && diagnostics == old(diagnostics)
      ensures old(Current()).kind !in {IdentifierToken, NumberToken, Expression} ==>
        && index == old(index)
        && diagnostics == old(diagnostics) + [TokenMissmatch(old(Current()).kind, Expression, old(Current()).line)]
      ensures |diagnostics| == |old(diagnostics)| ==> ExprKinds(e) == KindsBetween(tokens, old(index), index)
      decreases |tokens| - index, 0
    {
      var kind := Current().kind;
      if kind == IdentifierToken || kind == NumberToken {
        var t := NextToken();
        e := TokenExpr(t);
        return;
      }
      var t := ExpectToken(Expression);
      e := TokenExpr(t);
    }
  }
}
