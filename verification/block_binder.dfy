/** The binder of src/analysis/binder/binder.ts.

    Binding walks the syntax tree with a current scope. A scope holds the
    cell assignments known by name, which this binder only reads, and the
    list of cell references bound since the last assignment. A block binds
    its statements in a child scope and then returns to its parent. An
    assignment collects the references of its right-hand side as its
    dependencies. A reference to a name with no assignment gets an
    implicit assignment of the literal 0, reported as undeclared only when
    explicit declarations are required.

    The constructor of a bound cell assignment, which receives the scope,
    is not part of this model; it is taken not to add the assignment to
    the scope, so the scopes this binder builds stay without assignments.

    Runtime cells are handles with an identity and a name; `new Cell(name, 0)`
    is the next unused identity. `parseFloat` is the parameter
    `parseNumber`. */
module BlockBinder {

  datatype Span = Span(start: nat, end: nat)

  datatype SyntaxBinaryOperatorKind = PlusToken | MinusToken | StarToken | SlashToken | HatToken
  datatype SyntaxUnaryOperatorKind = UnaryPlusToken | UnaryMinusToken

  datatype Node =
    | SyntaxCompilationUnit(root: seq<Node>, span: Span)
    | NumberToken(text: string, span: Span)
    | SyntaxParenthesis(expression: Node, span: Span)
    | SyntaxUnaryExpression(unaryOperator: SyntaxUnaryOperatorKind, right: Node, span: Span)
    | BinaryExpression(left: Node, binaryOperator: SyntaxBinaryOperatorKind, right: Node, span: Span)
    | SyntaxBlock(statements: seq<Node>, span: Span)
    | SyntaxCellReference(text: string, span: Span)
    | SyntaxCellAssignment(target: string, targetSpan: Span, expression: Node, span: Span)
    | OtherSyntax(kind: string, span: Span)

  datatype BoundBinaryOperatorKind = Addition | Subtraction | Multiplication | Division | Exponentiation
  datatype BoundUnaryOperatorKind = Identity | Negation

  /** A runtime cell. */
  datatype CellHandle = CellHandle(id: nat, name: string)

  /** A bound cell assignment: the cell, its expression, and the cell
      references the expression was bound with. */
  datatype Assignment = Assignment(reference: CellHandle, expression: Bound, dependencies: seq<Bound>, span: Span)

  datatype Bound =
    | BoundCompilationUnit(root: seq<Bound>, span: Span)
    | BoundBlock(statements: seq<Bound>, span: Span)
    | BoundCellAssignment(assignment: Assignment)
    | BoundCellReference(referenced: Assignment, span: Span)
    | BoundNumericLiteral(value: real, span: Span)
    | BoundBinaryExpression(left: Bound, op: BoundBinaryOperatorKind, right: Bound, span: Span)
    | BoundUnaryExpression(unaryOp: BoundUnaryOperatorKind, operand: Bound, span: Span)
    | BoundErrorExpression(kind: string, span: Span)

  datatype Diagnostic = BinderMethod(kind: string, span: Span) | UndeclaredCell(name: string, span: Span)

  datatype Scope = Scope(assignments: map<string, Assignment>, references: seq<Bound>)

  /** `bindBinaryOperatorKind`. Each syntax operator has its own bound
      kind, and each bound kind comes from exactly one operator. The
      binder of src/analysis/binder.ts has its own copy of this mapping,
      over its own kinds, which `AnalysisBinder` models separately. */
  function BindBinaryOperatorKind(k: SyntaxBinaryOperatorKind): (r: BoundBinaryOperatorKind)
    ensures r == Addition <==> k == PlusToken
    ensures r == Subtraction <==> k == MinusToken
    ensures r == Multiplication <==> k == StarToken
    ensures r == Division <==> k == SlashToken
    ensures r == Exponentiation <==> k == HatToken
  {
    match k
    case PlusToken => Addition
    case MinusToken => Subtraction
    case StarToken => Multiplication
    case SlashToken => Division
    case HatToken => Exponentiation
  }

  /** `bindUnaryOperatorKind`. Prefix `+` is the identity and prefix `-`
      the negation, and no other way round; like the binary mapping, it
      mirrors a separate mapping of src/analysis/binder.ts. */
  function BindUnaryOperatorKind(k: SyntaxUnaryOperatorKind): (r: BoundUnaryOperatorKind)
    ensures r == Identity <==> k == UnaryPlusToken
    ensures r == Negation <==> k == UnaryMinusToken
  {
    match k
    case UnaryPlusToken => Identity
    case UnaryMinusToken => Negation
  }

  /** The bound tree `b` is what binding `n` in a scope with the given
      assignments gives, up to the identity of new cells: parentheses are
      transparent, a block's statements are bound in a scope with no
      assignments, a name with an assignment refers to it, and any other
      name refers to an implicit assignment of 0 to a new cell. */
  predicate BindsTo(parseNumber: string -> real, assignments: map<string, Assignment>, n: Node, b: Bound)
  {
    match n
    case SyntaxCompilationUnit(root, span) =>
      && b.BoundCompilationUnit? && b.span == span && |b.root| == |root|
      && forall i | 0 <= i < |root| :: BindsTo(parseNumber, assignments, root[i], b.root[i])
    case SyntaxBlock(statements, span) =>
      && b.BoundBlock? && b.span == span && |b.statements| == |statements|
      && forall i | 0 <= i < |statements| :: BindsTo(parseNumber, map[], statements[i], b.statements[i])
    case NumberToken(text, span) => b == BoundNumericLiteral(parseNumber(text), span)
    case SyntaxParenthesis(e, _) => BindsTo(parseNumber, assignments, e, b)
    case SyntaxUnaryExpression(op, e, span) =>
      && b.BoundUnaryExpression? && b.unaryOp == BindUnaryOperatorKind(op) && b.span == span
      && BindsTo(parseNumber, assignments, e, b.operand)
    case BinaryExpression(l, op, r, span) =>
      && b.BoundBinaryExpression? && b.op == BindBinaryOperatorKind(op) && b.span == span
      && BindsTo(parseNumber, assignments, l, b.left) && BindsTo(parseNumber, assignments, r, b.right)
    case SyntaxCellReference(name, span) =>
      && b.BoundCellReference? && b.span == span
      && (name in assignments ==> b.referenced == assignments[name])
      && (name !in assignments ==>
            && b.referenced.reference.name == name
            && b.referenced.expression == BoundNumericLiteral(0.0, span)
            && b.referenced.dependencies == [] && b.referenced.span == span)
    case SyntaxCellAssignment(name, _, e, span) =>
      && b.BoundCellAssignment? && b.assignment.span == span
      && (name in assignments ==> b.assignment.reference == assignments[name].reference)
      && (name !in assignments ==> b.assignment.reference.name == name)
      && BindsTo(parseNumber, assignments, e, b.assignment.expression)
      && b.assignment.dependencies == Queue([], b.assignment.expression)
    case OtherSyntax(kind, span) => b == BoundErrorExpression(kind, span)
  }

  /** The scope's reference list after binding produced `b`, starting from
      `q`: references are appended in binding order, a block leaves the
      list alone (its references go to its own scope), and an assignment
      leaves it empty. */
  function Queue(q: seq<Bound>, b: Bound): seq<Bound>
    decreases b, 1
  {
    match b
    case BoundCompilationUnit(root, _) => QueueAll(q, root)
    case BoundBlock(_, _) => q
    case BoundCellAssignment(_) => []
    case BoundCellReference(_, _) => q + [b]
    case BoundBinaryExpression(l, _, r, _) => Queue(Queue(q, l), r)
    case BoundUnaryExpression(_, e, _) => Queue(q, e)
    case _ => q
  }

  function QueueAll(q: seq<Bound>, bs: seq<Bound>): seq<Bound>
    decreases bs, 0
  {
    if bs == [] then q else Queue(QueueAll(q, bs[..|bs| - 1]), bs[|bs| - 1])
  }

  /** What binding `n` reports, in binding order. */
  function Reported(explicit: bool, assignments: map<string, Assignment>, n: Node): seq<Diagnostic>
    decreases n, 1
  {
    match n
    case SyntaxCompilationUnit(root, _) => ReportedAll(explicit, assignments, root)
    case SyntaxBlock(statements, _) => ReportedAll(explicit, map[], statements)
    case SyntaxParenthesis(e, _) => Reported(explicit, assignments, e)
    case SyntaxUnaryExpression(_, e, _) => Reported(explicit, assignments, e)
    case BinaryExpression(l, _, r, _) => Reported(explicit, assignments, l) + Reported(explicit, assignments, r)
    case SyntaxCellReference(name, span) =>
      if name !in assignments && explicit then [UndeclaredCell(name, span)] else []
    case SyntaxCellAssignment(_, _, e, _) => Reported(explicit, assignments, e)
    case OtherSyntax(kind, span) => [BinderMethod(kind, span)]
    case NumberToken(_, _) => []
  }

  function ReportedAll(explicit: bool, assignments: map<string, Assignment>, s: seq<Node>): seq<Diagnostic>
    decreases s, 0
  {
    if s == [] then [] else ReportedAll(explicit, assignments, s[..|s| - 1]) + Reported(explicit, assignments, s[|s| - 1])
  }

  /** How many new cells binding `n` creates. */
  function Creations(assignments: map<string, Assignment>, n: Node): nat
    decreases n, 1
  {
    match n
    case SyntaxCompilationUnit(root, _) => CreationsAll(assignments, root)
    case SyntaxBlock(statements, _) => CreationsAll(map[], statements)
    case SyntaxParenthesis(e, _) => Creations(assignments, e)
    case SyntaxUnaryExpression(_, e, _) => Creations(assignments, e)
    case BinaryExpression(l, _, r, _) => Creations(assignments, l) + Creations(assignments, r)
    case SyntaxCellReference(name, _) => if name in assignments then 0 else 1
    case SyntaxCellAssignment(name, _, e, _) => Creations(assignments, e) + (if name in assignments then 0 else 1)
    case _ => 0
  }

  function CreationsAll(assignments: map<string, Assignment>, s: seq<Node>): nat
    decreases s, 0
  {
    if s == [] then 0 else CreationsAll(assignments, s[..|s| - 1]) + Creations(assignments, s[|s| - 1])
  }

  /** An expression with no assignment, compilation unit or block inside. */
  predicate Plain(n: Node)
  {
    match n
    case SyntaxParenthesis(e, _) => Plain(e)
    case SyntaxUnaryExpression(_, e, _) => Plain(e)
    case BinaryExpression(l, _, r, _) => Plain(l) && Plain(r)
    case NumberToken(_, _) => true
    case SyntaxCellReference(_, _) => true
    case OtherSyntax(_, _) => true
    case _ => false
  }

  /** The cell references of an expression, in binding order. */
  function References(n: Node): (r: seq<Node>)
    ensures forall i | 0 <= i < |r| :: r[i].SyntaxCellReference?
  {
    match n
    case SyntaxParenthesis(e, _) => References(e)
    case SyntaxUnaryExpression(_, e, _) => References(e)
    case BinaryExpression(l, _, r, _) => References(l) + References(r)
    case SyntaxCellReference(_, _) => [n]
    case _ => []
  }

  /** An assignment's dependencies are its expression's cell references:
      one bound reference per syntax reference, in source order, each with
      that reference's span, referring to the name's assignment or to a new
      one for that name. */
  lemma {:induction false} DependenciesAreReferences(parseNumber: string -> real, assignments: map<string, Assignment>,
                                                     n: Node, b: Bound, q: seq<Bound>)
    requires Plain(n) && BindsTo(parseNumber, assignments, n, b)
    ensures QueuedAsReferences(assignments, References(n), q, Queue(q, b))
  {
    match n
    case SyntaxParenthesis(e, _) =>
      DependenciesAreReferences(parseNumber, assignments, e, b, q);
    case SyntaxUnaryExpression(_, e, _) => DependenciesAreReferences(parseNumber, assignments, e, b.operand, q);
    case BinaryExpression(l, _, r, _) =>
      DependenciesAreReferences(parseNumber, assignments, l, b.left, q);
      var mid := Queue(q, b.left);
      DependenciesAreReferences(parseNumber, assignments, r, b.right, mid);
      QueuedInSequence(assignments, References(l), References(r), q, mid, Queue(mid, b.right));
    case SyntaxCellReference(_, _) =>
    case NumberToken(_, _) =>
    case OtherSyntax(_, _) =>
  }

  /** `added` is `q` followed by one bound reference per cell reference of
      `refs`, in order, each with that reference's span, referring to the
      name's assignment or to a new one for that name. */
  predicate QueuedAsReferences(assignments: map<string, Assignment>, refs: seq<Node>, q: seq<Bound>, added: seq<Bound>)
  {
    && |added| == |q| + |refs| && added[..|q|] == q
    && forall i | 0 <= i < |refs| :: BoundAsReference(assignments, refs[i], added[|q| + i])
  }

  predicate BoundAsReference(assignments: map<string, Assignment>, c: Node, r: Bound)
  {
    c.SyntaxCellReference? ==>
      && r.BoundCellReference? && r.span == c.span
      && r.referenced.reference.name == (if c.text in assignments then assignments[c.text].reference.name else c.text)
      && (c.text in assignments ==> r.referenced == assignments[c.text])
  }

  /** References queued one stretch after another. */
  lemma QueuedInSequence(assignments: map<string, Assignment>, left: seq<Node>, right: seq<Node>,
                         q: seq<Bound>, mid: seq<Bound>, added: seq<Bound>)
    requires QueuedAsReferences(assignments, left, q, mid)
    requires QueuedAsReferences(assignments, right, mid, added)
    ensures QueuedAsReferences(assignments, left + right, q, added)
  {
    forall i | 0 <= i < |left + right|
      ensures BoundAsReference(assignments, (left + right)[i], added[|q| + i])
    {
      if i < |left| {
        assert added[|q| + i] == added[..|mid|][|q| + i] == mid[|q| + i];
      } else {
        assert added[|q| + i] == added[|mid| + (i - |left|)];
      }
    }
    assert added[..|q|] == added[..|mid|][..|q|];
  }

  /** One more statement of a sequence reports and creates what it does
      on its own. */
  lemma PrefixSteps(explicit: bool, assignments: map<string, Assignment>, s: seq<Node>, i: nat)
    requires i < |s|
    ensures ReportedAll(explicit, assignments, s[..i + 1]) == ReportedAll(explicit, assignments, s[..i]) + Reported(explicit, assignments, s[i])
    ensures CreationsAll(assignments, s[..i + 1]) == CreationsAll(assignments, s[..i]) + Creations(assignments, s[i])
  {
    assert s[..i + 1][..i] == s[..i];
  }

  /** Undeclared cells are reported only when explicit declarations are
      required; otherwise only unknown node kinds are. */
  lemma {:induction false} UndeclaredOnlyWhenExplicit(assignments: map<string, Assignment>, n: Node)
    ensures forall i | 0 <= i < |Reported(false, assignments, n)| :: Reported(false, assignments, n)[i].BinderMethod?
    decreases n, 1
  {
    match n
    case SyntaxCompilationUnit(root, _) => UndeclaredOnlyWhenExplicitAll(assignments, root);
    case SyntaxBlock(statements, _) => UndeclaredOnlyWhenExplicitAll(map[], statements);
    case SyntaxParenthesis(e, _) => UndeclaredOnlyWhenExplicit(assignments, e);
    case SyntaxUnaryExpression(_, e, _) => UndeclaredOnlyWhenExplicit(assignments, e);
    case BinaryExpression(l, _, r, _) =>
      UndeclaredOnlyWhenExplicit(assignments, l);
      UndeclaredOnlyWhenExplicit(assignments, r);
    case SyntaxCellAssignment(_, _, e, _) => UndeclaredOnlyWhenExplicit(assignments, e);
    case SyntaxCellReference(_, _) =>
    case NumberToken(_, _) =>
    case OtherSyntax(_, _) =>
  }

  lemma {:induction false} UndeclaredOnlyWhenExplicitAll(assignments: map<string, Assignment>, s: seq<Node>)
    ensures forall i | 0 <= i < |ReportedAll(false, assignments, s)| :: ReportedAll(false, assignments, s)[i].BinderMethod?
    decreases s, 0
  {
    if s != [] {
      UndeclaredOnlyWhenExplicitAll(assignments, s[..|s| - 1]);
      UndeclaredOnlyWhenExplicit(assignments, s[|s| - 1]);
    }
  }

  class Binder {
    var scope: Scope
    var parents: seq<Scope>
    var cellCount: nat
    var diagnostics: seq<Diagnostic>
    const explicitDeclarations: bool
    const parseNumber: string -> real

    /** A binder starts in a root scope with no assignments. */
    constructor (explicit: bool, parse: string -> real)
      ensures scope == Scope(map[], []) && parents == [] && cellCount == 0 && diagnostics == []
      ensures explicitDeclarations == explicit && parseNumber == parse
    {
      scope, parents, cellCount, diagnostics := Scope(map[], []), [], 0, [];
      explicitDeclarations, parseNumber := explicit, parse;
    }

    /** `bind`: dispatch on the node kind; an unknown kind is reported and
        bound to an error node. Binding keeps the scope's assignments and
        the enclosing scopes, and leaves the reference list as `Queue` says. */
    method Bind(n: Node) returns (b: Bound)
      modifies this
      ensures scope.assignments == old(scope.assignments) && parents == old(parents)
      ensures scope.references == Queue(old(scope.references), b)
      ensures BindsTo(parseNumber, old(scope.assignments), n, b)
      ensures diagnostics == old(diagnostics) + Reported(explicitDeclarations, old(scope.assignments), n)
      ensures cellCount == old(cellCount) + Creations(old(scope.assignments), n)
      decreases n, 2
    {
      match n
      case SyntaxCompilationUnit(_, _) => b := BindCompilationUnit(n);
      case NumberToken(text, span) => b := BoundNumericLiteral(parseNumber(text), span);
      case SyntaxParenthesis(e, _) => b := Bind(e);
      case SyntaxUnaryExpression(_, _, _) => b := BindUnaryExpression(n);
      case BinaryExpression(_, _, _, _) => b := BindBinaryExpression(n);
      case SyntaxBlock(_, _) => b := BindBlock(n);
      case SyntaxCellReference(_, _) => b := BindCellReference(n);
      case SyntaxCellAssignment(_, _, _, _) => b := BindCellAssignment(n);
      case OtherSyntax(kind, span) =>
        diagnostics := diagnostics + [BinderMethod(kind, span)];
        b := BoundErrorExpression(kind, span);
    }

    /** Binds `s` in order in the current scope. */
    method BindStatements(s: seq<Node>, ghost container: Node) returns (bs: seq<Bound>)
      requires forall i | 0 <= i < |s| :: s[i] < container
      modifies this
      ensures scope.assignments == old(scope.assignments) && parents == old(parents)
      ensures scope.references == QueueAll(old(scope.references), bs)
      ensures |bs| == |s| && forall i | 0 <= i < |s| :: BindsTo(parseNumber, old(scope.assignments), s[i], bs[i])
      ensures diagnostics == old(diagnostics) + ReportedAll(explicitDeclarations, old(scope.assignments), s)
      ensures cellCount == old(cellCount) + CreationsAll(old(scope.assignments), s)
      decreases container, 0
    {
      bs := [];
      for i := 0 to |s|
        invariant scope.assignments == old(scope.assignments) && parents == old(parents)
        invariant scope.references == QueueAll(old(scope.references), bs)
        invariant |bs| == i && forall j | 0 <= j < i :: BindsTo(parseNumber, old(scope.assignments), s[j], bs[j])
        invariant diagnostics == old(diagnostics) + ReportedAll(explicitDeclarations, old(scope.assignments), s[..i])
        invariant cellCount == old(cellCount) + CreationsAll(old(scope.assignments), s[..i])
      {
        var statement := Bind(s[i]);
        PrefixSteps(explicitDeclarations, old(scope.assignments), s, i);
        assert (bs + [statement])[..|bs|] == bs;
        bs := bs + [statement];
      }
      assert s[..|s|] == s;
    }

    /** `bindCompilationUnit`: one bound statement per statement, in order. */
    method BindCompilationUnit(n: Node) returns (b: Bound)
      requires n.SyntaxCompilationUnit?
      modifies this
      ensures scope.assignments == old(scope.assignments) && parents == old(parents)
      ensures scope.references == Queue(old(scope.references), b)
      ensures BindsTo(parseNumber, old(scope.assignments), n, b)
      ensures diagnostics == old(diagnostics) + Reported(explicitDeclarations, old(scope.assignments), n)
      ensures cellCount == old(cellCount) + Creations(old(scope.assignments), n)
      decreases n, 1
    {
      var statements := BindStatements(n.root, n);
      b := BoundCompilationUnit(statements, n.span);
    }

    /** `bindBlock`: the statements are bound in a new child scope, and the
        scope is exactly what it was before afterwards. */
    method BindBlock(n: Node) returns (b: Bound)
      requires n.SyntaxBlock?
      modifies this
      ensures scope == old(scope) && parents == old(parents)
      ensures BindsTo(parseNumber, old(scope.assignments), n, b)
      ensures diagnostics == old(diagnostics) + Reported(explicitDeclarations, old(scope.assignments), n)
      ensures cellCount == old(cellCount) + Creations(old(scope.assignments), n)
      decreases n, 1
    {
      parents := parents + [scope];
      scope := Scope(map[], []);
      var statements := BindStatements(n.statements, n);
      scope := parents[|parents| - 1];
      parents := parents[..|parents| - 1];
      b := BoundBlock(statements, n.span);
    }

    /** `bindCellAssignment`: the reference list is emptied, the expression
        bound, and the references it collected become the dependencies;
        the scope then gets a new, empty list. */
    method BindCellAssignment(n: Node) returns (b: Bound)
      requires n.SyntaxCellAssignment?
      modifies this
      ensures scope.assignments == old(scope.assignments) && parents == old(parents)
      ensures scope.references == []
      ensures BindsTo(parseNumber, old(scope.assignments), n, b)
      ensures diagnostics == old(diagnostics) + Reported(explicitDeclarations, old(scope.assignments), n)
      ensures cellCount == old(cellCount) + Creations(old(scope.assignments), n)
      ensures n.target !in old(scope.assignments) ==> b.assignment.reference.id == cellCount - 1
      decreases n, 1
    {
      scope := scope.(references := []);
      var expression := Bind(n.expression);
      var reference := BindCell(n.target);
      b := BoundCellAssignment(Assignment(reference, expression, scope.references, n.span));
      scope := scope.(references := []);
    }

    /** `bindCell`: the cell of the name's assignment, or a new cell. */
    method BindCell(name: string) returns (c: CellHandle)
      modifies this`cellCount
      ensures name in scope.assignments ==> c == scope.assignments[name].reference && cellCount == old(cellCount)
      ensures name !in scope.assignments ==> c == CellHandle(old(cellCount), name) && cellCount == old(cellCount) + 1
    {
      if name in scope.assignments {
        return scope.assignments[name].reference;
      }
      c := CellHandle(cellCount, name);
      cellCount := cellCount + 1;
    }

    /** `bindCellReference`: a reference to the name's assignment, or to an
        implicit assignment of 0 to a new cell, reported as undeclared when
        explicit declarations are required; the reference is appended to
        the scope's list. */
    method BindCellReference(n: Node) returns (b: Bound)
      requires n.SyntaxCellReference?
      modifies this
      ensures scope.assignments == old(scope.assignments) && parents == old(parents)
      ensures scope.references == old(scope.references) + [b]
      ensures BindsTo(parseNumber, old(scope.assignments), n, b)
      ensures diagnostics == old(diagnostics) + Reported(explicitDeclarations, old(scope.assignments), n)
      ensures cellCount == old(cellCount) + Creations(old(scope.assignments), n)
      ensures n.text !in old(scope.assignments) ==> b.referenced.reference == CellHandle(old(cellCount), n.text)
    {
      var assignment: Assignment;
      if n.text in scope.assignments {
        assignment := scope.assignments[n.text];
      } else {
        var number := BoundNumericLiteral(0.0, n.span);
        var value := BindCell(n.text);
        assignment := Assignment(value, number, [], n.span);
        if explicitDeclarations {
          diagnostics := diagnostics + [UndeclaredCell(n.text, n.span)];
        }
      }
      b := BoundCellReference(assignment, n.span);
      scope := scope.(references := scope.references + [b]);
    }

    method BindBinaryExpression(n: Node) returns (b: Bound)
      requires n.BinaryExpression?
      modifies this
      ensures scope.assignments == old(scope.assignments) && parents == old(parents)
      ensures scope.references == Queue(old(scope.references), b)
      ensures BindsTo(parseNumber, old(scope.assignments), n, b)
      ensures diagnostics == old(diagnostics) + Reported(explicitDeclarations, old(scope.assignments), n)
      ensures cellCount == old(cellCount) + Creations(old(scope.assignments), n)
      decreases n, 1
    {
      var left := Bind(n.left);
      var operator := BindBinaryOperatorKind(n.binaryOperator);
      var right := Bind(n.right);
      b := BoundBinaryExpression(left, operator, right, n.span);
      assert Reported(explicitDeclarations, old(scope.assignments), n)
        == Reported(explicitDeclarations, old(scope.assignments), n.left) + Reported(explicitDeclarations, old(scope.assignments), n.right);
    }

    method BindUnaryExpression(n: Node) returns (b: Bound)
      requires n.SyntaxUnaryExpression?
      modifies this
      ensures scope.assignments == old(scope.assignments) && parents == old(parents)
      ensures scope.references == Queue(old(scope.references), b)
      ensures BindsTo(parseNumber, old(scope.assignments), n, b)
      ensures diagnostics == old(diagnostics) + Reported(explicitDeclarations, old(scope.assignments), n)
      ensures cellCount == old(cellCount) + Creations(old(scope.assignments), n)
      decreases n, 1
    {
      var right := Bind(n.right);
      b := BoundUnaryExpression(BindUnaryOperatorKind(n.unaryOperator), right, n.span);
    }
  }
}
