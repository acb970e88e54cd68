/** The binder of src/Binder.ts.

    Binding is a recursive dispatch on the syntax kind; an unsupported kind
    or operator throws, which the model returns as a `Failure`. A cell
    reference's name is its column text followed by its row text, and a
    range reference's is the two names joined by ":". A reference
    declaration binds its right-hand side with a new binder over a new
    environment, and the names that binder referred to become the
    declaration's `Referencing` list.

    The environment API this binder calls is not part of this model. It is
    taken as: `ReferToCell` pushes the cell's name onto the stack that
    `GetStack` returns, and `RegisterNode` records the declaration and
    returns it. `parseFloat` is the parameter `parseNumber`. */
module ReferenceBinder {
  import opened Common

  datatype SyntaxKind = PlusToken | MinusToken | StarToken | SlashToken | OtherKind(name: string)

  datatype Node =
    | SyntaxTree(expressions: seq<Node>)
    | IdentifierToken(text: string)
    | NumberToken(text: string)
    | CellReference(column: string, row: string)
    | RangeReference(left: Node, right: Node)
    | ParenthesizedExpression(expression: Node)
    | UnaryExpression(unaryOperator: SyntaxKind, right: Node)
    | BinaryExpression(left: Node, binaryOperator: SyntaxKind, right: Node)
    | ReferenceDeclaration(left: Node, expression: Node)
    | OtherSyntax(kind: string)

  datatype BoundBinaryOperatorKind = Addition | Subtraction | Multiplication | Division
  datatype BoundUnaryOperatorKind = Identity | Negation

  datatype Bound =
    | BoundSyntaxTree(expressions: seq<Bound>)
    | BoundIdentifier(name: string, text: string)
    | BoundNumber(text: string, value: real)
    | BoundCellReference(reference: string)
    | BoundRangeReference(reference: string)
    | BoundUnaryExpression(unaryOp: BoundUnaryOperatorKind, operand: Bound)
    | BoundBinaryExpression(left: Bound, op: BoundBinaryOperatorKind, right: Bound)
    | BoundReferenceDeclaration(reference: string, referencing: seq<string>, referencedBy: seq<string>, expression: Bound)

  /** What the binder throws; each is also reported in its own bag first. */
  datatype BindError =
    | MissingBindingMethod(kind: string)
    | MissingOperatorKind(operatorKind: SyntaxKind)
    | CantUseAsAReference(nodeKind: string)

  datatype Result<+T> = Ok(value: T) | Failure(error: BindError)

  function KindName(n: Node): string
  {
    match n
    case SyntaxTree(_) => "SyntaxTree"
    case IdentifierToken(_) => "IdentifierToken"
    case NumberToken(_) => "NumberToken"
    case CellReference(_, _) => "CellReference"
    case RangeReference(_, _) => "RangeReference"
    case ParenthesizedExpression(_) => "ParenthesizedExpression"
    case UnaryExpression(_, _) => "UnaryExpression"
    case BinaryExpression(_, _, _) => "BinaryExpression"
    case ReferenceDeclaration(_, _) => "ReferenceDeclaration"
    case OtherSyntax(k) => k
  }

  /** `BindOperatorKind`: the four arithmetic operators; any other throws. */
  function BindOperatorKind(k: SyntaxKind): (r: Result<BoundBinaryOperatorKind>)
    ensures r.Failure? <==> k.OtherKind?
    ensures r.Failure? ==> r.error == MissingOperatorKind(k)
  {
    match k
    case PlusToken => Ok(Addition)
    case MinusToken => Ok(Subtraction)
    case StarToken => Ok(Multiplication)
    case SlashToken => Ok(Division)
    case OtherKind(_) => Failure(MissingOperatorKind(k))
  }

  /** `BindUnaryOperatorKind`: `+` and `-`; any other throws. */
  function BindUnaryOperatorKind(k: SyntaxKind): (r: Result<BoundUnaryOperatorKind>)
    ensures r.Failure? <==> !(k == PlusToken || k == MinusToken)
    ensures r.Failure? ==> r.error == MissingOperatorKind(k)
  {
    match k
    case PlusToken => Ok(Identity)
    case MinusToken => Ok(Negation)
    case _ => Failure(MissingOperatorKind(k))
  }

  /** The `Reference` of a bound node, as JavaScript would read it: the
      name of a cell or range, and "undefined" for any other node. */
  function ReferenceOf(b: Bound): string
  {
    match b
    case BoundCellReference(r) => r
    case BoundRangeReference(r) => r
    case BoundReferenceDeclaration(r, _, _, _) => r
    case _ => "undefined"
  }

  /** The names a binder refers to in its environment while binding `n`
      without failing, in order. A declaration's right-hand side refers in
      its own environment, so only its left side counts here. */
  function Referred(n: Node): seq<string>
  {
    match n
    case SyntaxTree(es) => ReferredAll(es)
    case CellReference(column, row) => [column + row]
    case RangeReference(l, r) => Referred(l) + Referred(r)
    case ParenthesizedExpression(e) => Referred(e)
    case UnaryExpression(_, e) => Referred(e)
    case BinaryExpression(l, _, r) => Referred(l) + Referred(r)
    case ReferenceDeclaration(l, _) => Referred(l)
    case _ => []
  }

  function ReferredAll(es: seq<Node>): seq<string>
  {
    if es == [] then [] else ReferredAll(es[..|es| - 1]) + Referred(es[|es| - 1])
  }

  /** The declarations a binder registers while binding `n` without
      failing, in order. */
  function Declared(parseNumber: string -> real, n: Node): seq<Bound>
  {
    match n
    case SyntaxTree(es) => DeclaredAll(parseNumber, es)
    case RangeReference(l, r) => Declared(parseNumber, l) + Declared(parseNumber, r)
    case ParenthesizedExpression(e) => Declared(parseNumber, e)
    case UnaryExpression(_, e) => Declared(parseNumber, e)
    case BinaryExpression(l, _, r) => Declared(parseNumber, l) + Declared(parseNumber, r)
    case ReferenceDeclaration(l, e) =>
      var d := Bind(parseNumber, n);
      if d.Ok? then Declared(parseNumber, l) + [d.value] else []
    case _ => []
  }

  function DeclaredAll(parseNumber: string -> real, es: seq<Node>): seq<Bound>
  {
    if es == [] then [] else DeclaredAll(parseNumber, es[..|es| - 1]) + Declared(parseNumber, es[|es| - 1])
  }

  /** `Bind`, as a value: the bound tree, or the first error thrown, in the
      order the source binds (a binary's left operand, then its operator,
      then its right operand; a unary's operator before its operand). */
  function Bind(parseNumber: string -> real, n: Node): (r: Result<Bound>)
    ensures r.Ok? && n.SyntaxTree? ==> r.value.BoundSyntaxTree? && |r.value.expressions| == |n.expressions|
    ensures r.Ok? && n.ReferenceDeclaration? ==>
      && r.value.BoundReferenceDeclaration?
      && n.left.CellReference? && r.value.reference == n.left.column + n.left.row
      && r.value.referencing == Referred(n.expression) && r.value.referencedBy == []
    ensures n.OtherSyntax? ==> r == Failure(MissingBindingMethod(n.kind))
    decreases n, 1
  {
    match n
    case SyntaxTree(es) =>
      var bs := BindAll(parseNumber, es);
      if bs.Failure? then Failure(bs.error) else Ok(BoundSyntaxTree(bs.value))
    case IdentifierToken(text) => Ok(BoundIdentifier(text, text))
    case NumberToken(text) => Ok(BoundNumber(text, parseNumber(text)))
    case CellReference(column, row) => Ok(BoundCellReference(column + row))
    case RangeReference(l, r) =>
      var left := Bind(parseNumber, l);
      if left.Failure? then left
      else
        var right := Bind(parseNumber, r);
        if right.Failure? then right
        else Ok(BoundRangeReference(ReferenceOf(left.value) + ":" + ReferenceOf(right.value)))
    case ParenthesizedExpression(e) => Bind(parseNumber, e)
    case UnaryExpression(op, e) =>
      var operator := BindUnaryOperatorKind(op);
      if operator.Failure? then Failure(operator.error)
      else
        var right := Bind(parseNumber, e);
        if right.Failure? then right
        else Ok(BoundUnaryExpression(operator.value, right.value))
    case BinaryExpression(l, op, r) =>
      var left := Bind(parseNumber, l);
      if left.Failure? then left
      else
        var operator := BindOperatorKind(op);
        if operator.Failure? then Failure(operator.error)
        else
          var right := Bind(parseNumber, r);
          if right.Failure? then right
          else Ok(BoundBinaryExpression(left.value, operator.value, right.value))
    case ReferenceDeclaration(l, e) =>
      if !l.CellReference? then Failure(CantUseAsAReference("ReferenceDeclaration"))
      else
        var expression := Bind(parseNumber, e);
        if expression.Failure? then expression
        else Ok(BoundReferenceDeclaration(l.column + l.row, Referred(e), [], expression.value))
    case OtherSyntax(k) => Failure(MissingBindingMethod(k))
  }

  function BindAll(parseNumber: string -> real, es: seq<Node>): (r: Result<seq<Bound>>)
    ensures r.Ok? ==> |r.value| == |es|
    decreases es, 0
  {
    if es == [] then Ok([])
    else
      var front := BindAll(parseNumber, es[..|es| - 1]);
      if front.Failure? then front
      else
        var last := Bind(parseNumber, es[|es| - 1]);
        if last.Failure? then Failure(last.error) else Ok(front.value + [last.value])
  }

  /** The trees the binder accepts: known kinds and operators only, and a
      cell reference on the left of every declaration. */
  predicate Supported(n: Node)
  {
    match n
    case SyntaxTree(es) => forall i | 0 <= i < |es| :: Supported(es[i])
    case RangeReference(l, r) => Supported(l) && Supported(r)
    case ParenthesizedExpression(e) => Supported(e)
    case UnaryExpression(op, e) => (op == PlusToken || op == MinusToken) && Supported(e)
    case BinaryExpression(l, op, r) => !op.OtherKind? && Supported(l) && Supported(r)
    case ReferenceDeclaration(l, e) => l.CellReference? && Supported(e)
    case OtherSyntax(_) => false
    case _ => true
  }

  /** Binding succeeds exactly on the supported trees. */
  lemma {:induction false} BindSucceedsIffSupported(parseNumber: string -> real, n: Node)
    ensures Bind(parseNumber, n).Ok? <==> Supported(n)
    decreases n, 1
  {
    match n
    case SyntaxTree(es) => BindAllSucceedsIffSupported(parseNumber, es);
    case RangeReference(l, r) =>
      BindSucceedsIffSupported(parseNumber, l);
      BindSucceedsIffSupported(parseNumber, r);
    case ParenthesizedExpression(e) => BindSucceedsIffSupported(parseNumber, e);
    case UnaryExpression(_, e) => BindSucceedsIffSupported(parseNumber, e);
    case BinaryExpression(l, _, r) =>
      BindSucceedsIffSupported(parseNumber, l);
      BindSucceedsIffSupported(parseNumber, r);
    case ReferenceDeclaration(_, e) => BindSucceedsIffSupported(parseNumber, e);
    case IdentifierToken(_) =>
    case NumberToken(_) =>
    case CellReference(_, _) =>
    case OtherSyntax(_) =>
  }

  lemma {:induction false} BindAllSucceedsIffSupported(parseNumber: string -> real, es: seq<Node>)
    ensures BindAll(parseNumber, es).Ok? <==> forall i | 0 <= i < |es| :: Supported(es[i])
    decreases es, 0
  {
    if es != [] {
      var front := es[..|es| - 1];
      BindAllSucceedsIffSupported(parseNumber, front);
      BindSucceedsIffSupported(parseNumber, es[|es| - 1]);
      assert forall i | 0 <= i < |front| :: front[i] == es[i];
    }
  }

  /** The first failure in a prefix of the statements is the failure of
      all of them. */
  lemma {:induction false} BindAllKeepsFailure(parseNumber: string -> real, es: seq<Node>, i: nat)
    requires i <= |es| && BindAll(parseNumber, es[..i]).Failure?
    ensures BindAll(parseNumber, es) == BindAll(parseNumber, es[..i])
    decreases |es|
  {
    if i < |es| {
      var front := es[..|es| - 1];
      assert front[..i] == es[..i];
      BindAllKeepsFailure(parseNumber, front, i);
    } else {
      assert es[..i] == es;
    }
  }

  /** A range of two cell references is named by the two cell names
      joined by ":". */
  lemma RangeOfCells(parseNumber: string -> real, c1: string, r1: string, c2: string, r2: string)
    ensures Bind(parseNumber, RangeReference(CellReference(c1, r1), CellReference(c2, r2)))
      == Ok(BoundRangeReference(c1 + r1 + ":" + c2 + r2))
  {
    assert c1 + r1 + ":" + (c2 + r2) == c1 + r1 + ":" + c2 + r2;
  }

  class Binder {
    /** The environment's stack of referred cell names. */
    var referred: seq<string>
    /** The declarations registered with the environment. */
    var registered: seq<Bound>
    /** The binder's own diagnostic bag. */
    var diagnostics: seq<BindError>
    const parseNumber: string -> real

    /** A binder over a new, empty environment. */
    constructor (parse: string -> real)
      ensures referred == [] && registered == [] && diagnostics == [] && parseNumber == parse
    {
      referred, registered, diagnostics := [], [], [];
      parseNumber := parse;
    }

    /** The error that this binder throws is reported in its own bag first. */
    method Throw(e: BindError) returns (r: Result<Bound>)
      modifies this`diagnostics
      ensures r == Failure(e) && diagnostics == old(diagnostics) + [e]
    {
      diagnostics := diagnostics + [e];
      r := Failure(e);
    }

    /** `Bind`: the result is `Bind` above. When it succeeds, the names
        referred to and the declarations registered are appended, in order,
        and nothing is reported; a failure is reported at most once, here
        or in an inner declaration's own binder. */
    method BindNode(n: Node) returns (r: Result<Bound>)
      modifies this
      ensures r == Bind(parseNumber, n)
      ensures r.Ok? ==> referred == old(referred) + Referred(n) && registered == old(registered) + Declared(parseNumber, n)
      ensures r.Ok? ==> diagnostics == old(diagnostics)
      ensures r.Failure? ==> diagnostics == old(diagnostics) || diagnostics == old(diagnostics) + [r.error]
      decreases n, 2
    {
      match n
      case SyntaxTree(_) => r := BindSyntaxTree(n);
      case IdentifierToken(text) => r := Ok(BoundIdentifier(text, text));
      case NumberToken(text) => r := Ok(BoundNumber(text, parseNumber(text)));
      case CellReference(_, _) => r := BindCellReference(n);
      case RangeReference(_, _) => r := BindRangeReference(n);
      case ParenthesizedExpression(e) => r := BindNode(e);
      case UnaryExpression(_, _) => r := BindUnaryExpression(n);
      case BinaryExpression(_, _, _) => r := BindBinaryExpression(n);
      case ReferenceDeclaration(_, _) => r := BindReferenceDeclaration(n);
      case OtherSyntax(k) => r := Throw(MissingBindingMethod(k));
    }

    /** `BindSyntaxTree`: each expression in order. */
    method BindSyntaxTree(n: Node) returns (r: Result<Bound>)
      requires n.SyntaxTree?
      modifies this
      ensures r == Bind(parseNumber, n)
      ensures r.Ok? ==> referred == old(referred) + Referred(n) && registered == old(registered) + Declared(parseNumber, n)
      ensures r.Ok? ==> diagnostics == old(diagnostics)
      ensures r.Failure? ==> diagnostics == old(diagnostics) || diagnostics == old(diagnostics) + [r.error]
      decreases n, 1
    {
      var es := n.expressions;
      var bs: seq<Bound> := [];
      for i := 0 to |es|
        invariant BindAll(parseNumber, es[..i]) == Ok(bs)
        invariant referred == old(referred) + ReferredAll(es[..i])
        invariant registered == old(registered) + DeclaredAll(parseNumber, es[..i])
        invariant diagnostics == old(diagnostics)
      {
        assert es[..i + 1][..i] == es[..i];
        var b := BindNode(es[i]);
        if b.Failure? {
          BindAllKeepsFailure(parseNumber, es, i + 1);
          return Failure(b.error);
        }
        bs := bs + [b.value];
      }
      assert es[..|es|] == es;
      r := Ok(BoundSyntaxTree(bs));
    }

    /** `BindCellReference`: the name is the column and row texts joined,
        and it is referred to in the environment. */
    method BindCellReference(n: Node) returns (r: Result<Bound>)
      requires n.CellReference?
      modifies this`referred
      ensures r == Ok(BoundCellReference(n.column + n.row))
      ensures referred == old(referred) + [n.column + n.row]
    {
      var reference := n.column + n.row;
      referred := referred + [reference];
      r := Ok(BoundCellReference(reference));
    }

    method BindRangeReference(n: Node) returns (r: Result<Bound>)
      requires n.RangeReference?
      modifies this
      ensures r == Bind(parseNumber, n)
      ensures r.Ok? ==> referred == old(referred) + Referred(n) && registered == old(registered) + Declared(parseNumber, n)
      ensures r.Ok? ==> diagnostics == old(diagnostics)
      ensures r.Failure? ==> diagnostics == old(diagnostics) || diagnostics == old(diagnostics) + [r.error]
      decreases n, 1
    {
      var left := BindNode(n.left);
      if left.Failure? {
        return left;
      }
      var right := BindNode(n.right);
      if right.Failure? {
        return right;
      }
      r := Ok(BoundRangeReference(ReferenceOf(left.value) + ":" + ReferenceOf(right.value)));
      AppendAssociative(old(referred), Referred(n.left), Referred(n.right));
      AppendAssociative(old(registered), Declared(parseNumber, n.left), Declared(parseNumber, n.right));
    }

    method BindUnaryExpression(n: Node) returns (r: Result<Bound>)
      requires n.UnaryExpression?
      modifies this
      ensures r == Bind(parseNumber, n)
      ensures r.Ok? ==> referred == old(referred) + Referred(n) && registered == old(registered) + Declared(parseNumber, n)
      ensures r.Ok? ==> diagnostics == old(diagnostics)
      ensures r.Failure? ==> diagnostics == old(diagnostics) || diagnostics == old(diagnostics) + [r.error]
      decreases n, 1
    {
      var operator := BindUnaryOperatorKind(n.unaryOperator);
      if operator.Failure? {
        r := Throw(operator.error);
        return;
      }
      var right := BindNode(n.right);
      if right.Failure? {
        return right;
      }
      r := Ok(BoundUnaryExpression(operator.value, right.value));
    }

    method BindBinaryExpression(n: Node) returns (r: Result<Bound>)
      requires n.BinaryExpression?
      modifies this
      ensures r == Bind(parseNumber, n)
      ensures r.Ok? ==> referred == old(referred) + Referred(n) && registered == old(registered) + Declared(parseNumber, n)
      ensures r.Ok? ==> diagnostics == old(diagnostics)
      ensures r.Failure? ==> diagnostics == old(diagnostics) || diagnostics == old(diagnostics) + [r.error]
      decreases n, 1
    {
      var left := BindNode(n.left);
      if left.Failure? {
        return left;
      }
      var operator := BindOperatorKind(n.binaryOperator);
      if operator.Failure? {
        r := Throw(operator.error);
        return;
      }
      var right := BindNode(n.right);
      if right.Failure? {
        return right;
      }
      r := Ok(BoundBinaryExpression(left.value, operator.value, right.value));
      AppendAssociative(old(referred), Referred(n.left), Referred(n.right));
      AppendAssociative(old(registered), Declared(parseNumber, n.left), Declared(parseNumber, n.right));
    }

    /** `BindReferenceDeclaration`: the left cell is referred to here, the
        right-hand side is bound by a new binder over a new environment,
        and that environment's stack becomes `Referencing`; the declaration
        is registered here. A left side that is not a cell throws. */
    method BindReferenceDeclaration(n: Node) returns (r: Result<Bound>)
      requires n.ReferenceDeclaration?
      modifies this
      ensures r == Bind(parseNumber, n)
      ensures r.Ok? ==> referred == old(referred) + Referred(n) && registered == old(registered) + Declared(parseNumber, n)
      ensures r.Ok? ==> diagnostics == old(diagnostics)
      ensures r.Failure? ==> diagnostics == old(diagnostics) || diagnostics == old(diagnostics) + [r.error]
      decreases n, 1
    {
      if !n.left.CellReference? {
        r := Throw(CantUseAsAReference("ReferenceDeclaration"));
        return;
      }
      var left := BindCellReference(n.left);
      var factory := new Binder(parseNumber);
      var expression := factory.BindNode(n.expression);
      if expression.Failure? {
        return expression;
      }
      var referencing := factory.referred;
      assert referencing == Referred(n.expression);
      var bound := BoundReferenceDeclaration(n.left.column + n.left.row, referencing, [], expression.value);
      registered := registered + [bound];
      r := Ok(bound);
    }
  }
}
