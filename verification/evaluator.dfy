/** The evaluator of src/runtime/evaluator.ts, over the bound trees of the
    block binder.

    Evaluation keeps an accumulator, initially 0, that holds the value of
    the last statement evaluated; an assignment writes its value into its
    cell, and a cell reference reads the value stored there. The values of
    the runtime cells are the map `cells` from cell identity to value; a
    cell never written holds the 0 it was created with. Numbers are reals:
    division and exponentiation are the parameters `divide` and `power`. */
module Evaluator {
  import opened BlockBinder

  datatype Diagnostic = EvaluatorMethod(kind: string, span: Span)

  datatype Operators = Operators(divide: (real, real) -> real, power: (real, real) -> real)

  /** The evaluator's state: the accumulator, the cell values, and the
      diagnostics reported so far. */
  datatype State = State(value: real, cells: map<nat, real>, diagnostics: seq<Diagnostic>)

  function CellValue(cells: map<nat, real>, c: CellHandle): real
  {
    if c.id in cells then cells[c.id] else 0.0
  }

  /** The operator of a bound binary kind applied to the left and the
      right value. */
  function Apply(ops: Operators, op: BoundBinaryOperatorKind, x: real, y: real): real
  {
    match op
    case Addition => x + y
    case Subtraction => x - y
    case Multiplication => x * y
    case Division => ops.divide(x, y)
    case Exponentiation => ops.power(x, y)
  }

  /** `evaluate`: the state after evaluating `b` from `s`, and its value.
      Operands are evaluated left before right; an unknown bound kind is
      reported and evaluates to 0. */
  function Run(ops: Operators, s: State, b: Bound): (r: (State, real))
    ensures s.diagnostics <= r.0.diagnostics
    decreases b, 1
  {
    match b
    case BoundCompilationUnit(root, _) => RunAll(ops, s, root)
    case BoundBlock(statements, _) => RunAll(ops, s, statements)
    case BoundCellAssignment(a) =>
      var (s1, v) := Run(ops, s, a.expression);
      (s1.(cells := s1.cells[a.reference.id := v]), v)
    case BoundCellReference(a, _) => (s, CellValue(s.cells, a.reference))
    case BoundBinaryExpression(l, op, x, _) =>
      var (s1, left) := Run(ops, s, l);
      var (s2, right) := Run(ops, s1, x);
      (s2, Apply(ops, op, left, right))
    case BoundUnaryExpression(op, x, _) =>
      var (s1, operand) := Run(ops, s, x);
      (s1, if op == Identity then operand else -operand)
    case BoundNumericLiteral(v, _) => (s, v)
    case BoundErrorExpression(_, span) =>
      (s.(diagnostics := s.diagnostics + [EvaluatorMethod("BoundErrorExpression", span)]), 0.0)
  }

  /** The statement loop of a compilation unit or block: each statement's
      value becomes the accumulator, and the accumulator is the result. */
  function RunAll(ops: Operators, s: State, bs: seq<Bound>): (r: (State, real))
    ensures r.1 == r.0.value
    ensures s.diagnostics <= r.0.diagnostics
    ensures bs == [] ==> r == (s, s.value)
    decreases bs, 0
  {
    if bs == [] then (s, s.value)
    else
      var (s1, _) := RunAll(ops, s, bs[..|bs| - 1]);
      var (s2, v) := Run(ops, s1, bs[|bs| - 1]);
      (s2.(value := v), v)
  }

  /** An expression that neither assigns, nor holds statements, nor has an
      unknown kind. */
  predicate Pure(b: Bound)
  {
    match b
    case BoundCellReference(_, _) => true
    case BoundNumericLiteral(_, _) => true
    case BoundBinaryExpression(l, _, r, _) => Pure(l) && Pure(r)
    case BoundUnaryExpression(_, x, _) => Pure(x)
    case _ => false
  }

  /** The value of a pure expression over the given cell values. */
  function Value(ops: Operators, cells: map<nat, real>, b: Bound): real
    requires Pure(b)
  {
    match b
    case BoundCellReference(a, _) => CellValue(cells, a.reference)
    case BoundNumericLiteral(v, _) => v
    case BoundBinaryExpression(l, op, r, _) => Apply(ops, op, Value(ops, cells, l), Value(ops, cells, r))
    case BoundUnaryExpression(op, x, _) => if op == Identity then Value(ops, cells, x) else -Value(ops, cells, x)
  }

  /** A pure expression leaves the state alone and evaluates to its value
      over the current cells; in particular a cell reference reads the
      stored value and does not evaluate the cell's formula again. */
  lemma {:induction false} PureExpressionsOnlyRead(ops: Operators, s: State, b: Bound)
    requires Pure(b)
    ensures Run(ops, s, b) == (s, Value(ops, s.cells, b))
  {
    match b
    case BoundCellReference(_, _) =>
    case BoundNumericLiteral(_, _) =>
    case BoundBinaryExpression(l, _, r, _) =>
      PureExpressionsOnlyRead(ops, s, l);
      PureExpressionsOnlyRead(ops, s, r);
    case BoundUnaryExpression(_, x, _) =>
      PureExpressionsOnlyRead(ops, s, x);
  }

  /** An assignment of a pure expression evaluates it once, stores the
      value in its cell, changes nothing else, and returns the value. */
  lemma AssignmentStores(ops: Operators, s: State, a: Assignment)
    requires Pure(a.expression)
    ensures var v := Value(ops, s.cells, a.expression);
      Run(ops, s, BoundCellAssignment(a)) == (s.(cells := s.cells[a.reference.id := v]), v)
    ensures CellValue(Run(ops, s, BoundCellAssignment(a)).0.cells, a.reference) == Run(ops, s, BoundCellAssignment(a)).1
  {
    PureExpressionsOnlyRead(ops, s, a.expression);
  }

  /** A unit of statements whose last one is an assignment of a pure
      expression evaluates to that expression's value over the cells the
      earlier statements left, which is also the value stored in the cell. */
  lemma LastAssignmentIsResult(ops: Operators, s: State, root: seq<Bound>, span: Span)
    requires |root| > 0 && root[|root| - 1].BoundCellAssignment? && Pure(root[|root| - 1].assignment.expression)
    ensures var before := RunAll(ops, s, root[..|root| - 1]).0;
      var last := root[|root| - 1].assignment;
      var (after, v) := Run(ops, s, BoundCompilationUnit(root, span));
      && v == Value(ops, before.cells, last.expression)
      && after.value == v && CellValue(after.cells, last.reference) == v
  {
    var before := RunAll(ops, s, root[..|root| - 1]).0;
    AssignmentStores(ops, before, root[|root| - 1].assignment);
  }

  class Evaluator {
    var value: real
    var cells: map<nat, real>
    var diagnostics: seq<Diagnostic>
    const ops: Operators

    function Current(): State
      reads this
    {
      State(value, cells, diagnostics)
    }

    /** The accumulator starts at 0. */
    constructor (operators: Operators, initial: map<nat, real>)
      ensures Current() == State(0.0, initial, []) && ops == operators
    {
      ops := operators;
      value, cells, diagnostics := 0.0, initial, [];
    }

    /** `evaluate`: dispatch on the bound kind. */
    method Evaluate(b: Bound) returns (r: real)
      modifies this
      ensures (Current(), r) == Run(ops, old(Current()), b)
      decreases b, 2
    {
      match b
      case BoundCompilationUnit(root, _) => r := EvaluateStatements(root, b);
      case BoundBlock(statements, _) => r := EvaluateStatements(statements, b);
      case BoundCellAssignment(_) => r := EvaluateCellAssignment(b);
      case BoundCellReference(a, _) => r := CellValue(cells, a.reference);
      case BoundBinaryExpression(_, _, _, _) => r := EvaluateBinaryExpression(b);
      case BoundUnaryExpression(_, _, _) => r := EvaluateUnaryExpression(b);
      case BoundNumericLiteral(v, _) => r := v;
      case BoundErrorExpression(_, span) =>
        diagnostics := diagnostics + [EvaluatorMethod("BoundErrorExpression", span)];
        r := 0.0;
    }

    /** `evaluateBoundCompilationUnit` and `evaluateBoundBlock`: each
        statement's value is stored in the accumulator, which is returned;
        with no statements the accumulator is returned unchanged. */
    method EvaluateStatements(bs: seq<Bound>, ghost container: Bound) returns (r: real)
      requires forall i | 0 <= i < |bs| :: bs[i] < container
      modifies this
      ensures (Current(), r) == RunAll(ops, old(Current()), bs)
      ensures r == value
      decreases container, 1
    {
      for i := 0 to |bs|
        invariant (Current(), value) == RunAll(ops, old(Current()), bs[..i])
      {
        assert bs[..i + 1][..i] == bs[..i];
        value := Evaluate(bs[i]);
      }
      assert bs[..|bs|] == bs;
      r := value;
    }

    /** `evaluateBoundCellAssignment`: the expression is evaluated once and
        its value stored in the cell and returned. */
    method EvaluateCellAssignment(b: Bound) returns (r: real)
      requires b.BoundCellAssignment?
      modifies this
      ensures (Current(), r) == Run(ops, old(Current()), b)
      ensures CellValue(cells, b.assignment.reference) == r
      decreases b, 1
    {
      r := Evaluate(b.assignment.expression);
      cells := cells[b.assignment.reference.id := r];
    }

    /** `evaluateBoundBinaryExpression`: left, then right, then the operator. */
    method EvaluateBinaryExpression(b: Bound) returns (r: real)
      requires b.BoundBinaryExpression?
      modifies this
      ensures (Current(), r) == Run(ops, old(Current()), b)
      decreases b, 1
    {
      ghost var before := old(Current());
      var left := Evaluate(b.left);
      ghost var middle := Current();
      var right := Evaluate(b.right);
      assert Run(ops, before, b.left) == (middle, left);
      assert Run(ops, before, b) == (Current(), Apply(ops, b.op, left, right));
      match b.op {
        case Addition => r := left + right;
        case Subtraction => r := left - right;
        case Multiplication => r := left * right;
        case Division => r := ops.divide(left, right);
        case Exponentiation => r := ops.power(left, right);
      }
    }

    /** `evaluateBoundUnaryExpression`: identity or negation of the operand. */
    method EvaluateUnaryExpression(b: Bound) returns (r: real)
      requires b.BoundUnaryExpression?
      modifies this
      ensures (Current(), r) == Run(ops, old(Current()), b)
      decreases b, 1
    {
      var right := Evaluate(b.operand);
      match b.unaryOp {
        case Identity => r := right;
        case Negation => r := -right;
      }
    }
  }
}
