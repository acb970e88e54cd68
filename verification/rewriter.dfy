/** The syntax-tree rewriter of src/CodeAnalysis/Rewriter/Rewriter.ts.

    It drops parentheses and unary plus, collapses a doubled unary
    operator, re-associates a binary right operand of equal precedence to
    the left, and flips `+` and `-` where a minus is distributed over a
    parenthesized operand. Unknown node kinds raise an error.

    The source assigns node fields in place, and one rewrite step
    (`RewriteUnaryExpression`) rewrites a node again after an earlier call
    has updated it. On values, `Updated` is the node as its own fields
    stand after a rewrite, and that node is what the step rewrites again
    (see the README for what this leaves out). The binary precedence table
    is the parameter `precedence`. */
module Rewriter {

  datatype OperatorKind = PlusToken | MinusToken | OtherOperator(name: string)

  datatype Token = Token(kind: OperatorKind, text: string)

  datatype Node =
    | NumberToken(text: string)
    | CellReference(column: string, row: string)
    | RangeReference(text: string)
    | Program(root: seq<Node>)
    | UnaryExpression(operator: Token, right: Node)
    | ParenthesizedExpression(expression: Node)
    | BinaryExpression(left: Node, op: Token, right: Node)
    | OtherNode(kind: string)

  datatype RewriteError = MissingMethod(kind: string) | MissingSwitchMethod(kind: string)

  datatype Result<+T> = Ok(value: T) | Failure(error: RewriteError)

  /** A size that every rewrite step decreases: a right operand weighs
      double, so moving weight from the right to the left of a binary, as
      the re-association does, makes a node lighter. */
  function Weight(n: Node): nat
  {
    match n
    case Program(root) => 1 + Weights(root)
    case UnaryExpression(_, x) => 1 + Weight(x)
    case ParenthesizedExpression(x) => 1 + Weight(x)
    case BinaryExpression(l, _, r) => Weight(l) + 2 * Weight(r) + 1
    case _ => 1
  }

  function Weights(s: seq<Node>): nat
  {
    if s == [] then 0 else Weight(s[0]) + Weights(s[1..])
  }

  /** The shape every successful rewrite has: no parentheses, no unary
      plus, and no unary operator applied directly to the same operator. */
  predicate Normal(n: Node)
  {
    match n
    case ParenthesizedExpression(_) => false
    case UnaryExpression(op, x) =>
      && op.kind != PlusToken && Normal(x)
      && !(x.UnaryExpression? && x.operator.kind == op.kind)
    case BinaryExpression(l, _, r) => Normal(l) && Normal(r)
    case Program(root) => forall i | 0 <= i < |root| :: Normal(root[i])
    case _ => true
  }

  /** The unary operators stacked at the top of a node, outermost first. */
  function Spine(n: Node): seq<OperatorKind>
  {
    if n.UnaryExpression? then [n.operator.kind] + Spine(n.right) else []
  }

  /** Two nodes with the same spine agree on their top unary operator,
      and so do the operands under it. */
  lemma SameSpine(a: Node, b: Node)
    requires Spine(a) == Spine(b)
    ensures a.UnaryExpression? <==> b.UnaryExpression?
    ensures a.UnaryExpression? ==> a.operator.kind == b.operator.kind && Spine(a.right) == Spine(b.right)
  {
    if a.UnaryExpression? {
      assert Spine(a)[0] == a.operator.kind;
      assert Spine(a)[1..] == Spine(a.right);
    }
  }

  function KindName(n: Node): string
  {
    match n
    case NumberToken(_) => "NumberToken"
    case CellReference(_, _) => "CellReference"
    case RangeReference(_) => "RangeReference"
    case Program(_) => "Program"
    case UnaryExpression(_, _) => "UnaryExpression"
    case ParenthesizedExpression(_) => "ParenthesizedExpression"
    case BinaryExpression(_, _, _) => "BinaryExpression"
    case OtherNode(k) => k
  }

  /** `Rewrite`: leaves are kept, parentheses dropped, and the other kinds
      rewritten by their own case. */
  function Rewrite(precedence: OperatorKind -> nat, n: Node): (r: Result<Node>)
    ensures r.Ok? ==> Weight(r.value) <= Weight(n) && Normal(r.value)
    ensures r.Ok? && Normal(n) ==> Spine(r.value) == Spine(n)
    ensures r.Ok? && n.BinaryExpression? ==> r.value.BinaryExpression?
    ensures r.Ok? && n.Program? ==> r.value.Program?
    ensures n.NumberToken? || n.CellReference? || n.RangeReference? ==> r == Ok(n)
    ensures n.OtherNode? ==> r == Failure(MissingMethod(n.kind))
    decreases Weight(n), 4
  {
    match n
    case NumberToken(_) => Ok(n)
    case CellReference(_, _) => Ok(n)
    case RangeReference(_) => Ok(n)
    case Program(root) =>
      var rs := RewriteAll(precedence, root);
      if rs.Failure? then Failure(rs.error) else Ok(Program(rs.value))
    case UnaryExpression(op, x) => RewriteUnary(precedence, op, x)
    case ParenthesizedExpression(x) => Rewrite(precedence, x)
    case BinaryExpression(l, op, x) => RewriteBinary(precedence, l, op, x)
    case OtherNode(k) => Failure(MissingMethod(k))
  }

  /** `RewriteProgram`: every statement rewritten, in order; the first
      failure is the result. */
  function RewriteAll(precedence: OperatorKind -> nat, s: seq<Node>): (r: Result<seq<Node>>)
    ensures r.Ok? ==> |r.value| == |s| && Weights(r.value) <= Weights(s)
    ensures r.Ok? ==> forall i | 0 <= i < |r.value| :: Normal(r.value[i])
    decreases Weights(s), 5
  {
    if s == [] then Ok([])
    else
      var head := Rewrite(precedence, s[0]);
      if head.Failure? then Failure(head.error)
      else
        var tail := RewriteAll(precedence, s[1..]);
        if tail.Failure? then Failure(tail.error)
        else Ok([head.value] + tail.value)
  }

  /** A program keeps the number and order of its statements, each
      rewritten on its own; when one fails, the first failure in order is
      the program's. */
  lemma {:induction false} RewriteAllInOrder(precedence: OperatorKind -> nat, s: seq<Node>)
    ensures var r := RewriteAll(precedence, s);
      && (r.Ok? ==> |r.value| == |s| && forall i | 0 <= i < |s| :: Rewrite(precedence, s[i]) == Ok(r.value[i]))
      && (r.Failure? <==> exists i | 0 <= i < |s| :: Rewrite(precedence, s[i]).Failure?)
      && (r.Failure? ==> exists i | 0 <= i < |s| ::
            && Rewrite(precedence, s[i]) == Failure(r.error)
            && forall j | 0 <= j < i :: Rewrite(precedence, s[j]).Ok?)
  {
    if s != [] {
      RewriteAllInOrder(precedence, s[1..]);
      var r := RewriteAll(precedence, s);
      var tail := RewriteAll(precedence, s[1..]);
      if Rewrite(precedence, s[0]).Ok? {
        if tail.Failure? {
          var i :| 0 <= i < |s[1..]| && Rewrite(precedence, s[1..][i]) == Failure(tail.error)
            && forall j | 0 <= j < i :: Rewrite(precedence, s[1..][j]).Ok?;
          assert Rewrite(precedence, s[i + 1]) == Failure(r.error);
          assert forall j | 0 <= j < i + 1 :: Rewrite(precedence, s[j]).Ok? by {
            forall j | 0 <= j < i + 1 ensures Rewrite(precedence, s[j]).Ok? {
              if j > 0 {
                assert s[j] == s[1..][j - 1];
              }
            }
          }
        } else {
          forall i | 0 <= i < |s| ensures Rewrite(precedence, s[i]) == Ok(r.value[i]) {
            if i > 0 {
              assert s[i] == s[1..][i - 1];
            }
          }
        }
      } else {
        assert Rewrite(precedence, s[0]) == Failure(r.error);
      }
    }
  }

  /** `RewriteUnaryExpression`: a doubled operator collapses to the inner
      operand of the rewritten operand. Otherwise the operand, as the first
      rewrite left it in place, is rewritten again; unary plus is then
      dropped by a third rewrite, and any other operator is kept over the
      second result. */
  function RewriteUnary(precedence: OperatorKind -> nat, op: Token, x: Node): (r: Result<Node>)
    ensures r.Ok? ==> Weight(r.value) <= Weight(UnaryExpression(op, x)) && Normal(r.value)
    ensures r.Ok? && Normal(UnaryExpression(op, x)) ==> Spine(r.value) == [op.kind] + Spine(x)
    decreases Weight(UnaryExpression(op, x)), 1
  {
    var first := Rewrite(precedence, x);
    if first.Failure? then first
    else if first.value.UnaryExpression? && first.value.operator.kind == op.kind then
      assert Normal(x) ==> Spine(first.value) == Spine(x) && (SameSpine(first.value, x); !Normal(UnaryExpression(op, x)));
      Rewrite(precedence, first.value.right)
    else
      var second := Rewrite(precedence, Updated(precedence, x));
      if second.Failure? then second
      else if op.kind == PlusToken then Rewrite(precedence, second.value)
      else
        SameSpine(second.value, first.value);
        Ok(UnaryExpression(op, second.value))
  }

  /** `RewriteBinaryExpression`: the left operand is rewritten (and switched
      when it is unary), then the right operand is handled by
      `RewriteRight`. */
  function RewriteBinary(precedence: OperatorKind -> nat, l: Node, op: Token, x: Node): (r: Result<Node>)
    ensures r.Ok? ==> Weight(r.value) <= Weight(BinaryExpression(l, op, x)) && Normal(r.value)
    ensures r.Ok? ==> r.value.BinaryExpression?
    decreases Weight(BinaryExpression(l, op, x)), 3
  {
    var left := LeftOperand(precedence, l);
    if left.Failure? then left
    else RewriteRight(precedence, left.value, op, x)
  }

  /** The left operand as `RewriteBinaryExpression` stores it: rewritten,
      then switched when the rewrite is unary. */
  function LeftOperand(precedence: OperatorKind -> nat, l: Node): (r: Result<Node>)
    ensures r.Ok? ==> Weight(r.value) <= Weight(l) && Normal(r.value) && !r.value.UnaryExpression?
    ensures Rewrite(precedence, l).Failure? ==> r == Rewrite(precedence, l)
    decreases Weight(l), 5
  {
    var rewritten := Rewrite(precedence, l);
    if rewritten.Failure? then rewritten
    else if rewritten.value.UnaryExpression? then Switch(precedence, rewritten.value)
    else rewritten
  }

  /** The right operand as `RewriteBinaryExpression` stores it: a
      parenthesized right operand of a minus is switched first, then the
      operand is rewritten. */
  function RightOperand(precedence: OperatorKind -> nat, op: Token, x: Node): (r: Result<Node>)
    ensures r.Ok? ==> Weight(r.value) <= Weight(x) && Normal(r.value)
    ensures !(op.kind == MinusToken && x.ParenthesizedExpression?) ==> r == Rewrite(precedence, x)
    decreases Weight(x), 5
  {
    var switched := if op.kind == MinusToken && x.ParenthesizedExpression? then Switch(precedence, x) else Ok(x);
    if switched.Failure? then switched
    else Rewrite(precedence, switched.value)
  }

  /** The rest of `RewriteBinaryExpression`, once the left operand is
      written: the parenthesized right operand of a minus is switched, the
      right operand rewritten, and one of equal precedence re-associated. */
  function RewriteRight(precedence: OperatorKind -> nat, left: Node, op: Token, x: Node): (r: Result<Node>)
    requires Normal(left)
    ensures r.Ok? ==> Weight(r.value) <= Weight(BinaryExpression(left, op, x)) && Normal(r.value)
    ensures r.Ok? ==> r.value.BinaryExpression?
    decreases Weight(BinaryExpression(left, op, x)), 2
  {
    var right := RightOperand(precedence, op, x);
    if right.Failure? then right
    else if right.value.BinaryExpression? && precedence(right.value.op.kind) == precedence(op.kind) then
      Reassociate(precedence, left, op, right.value)
    else Ok(BinaryExpression(left, op, right.value))
  }

  /** `L op (A op' B)` becomes `(L op A) op' B`, rewritten again, with `A`
      and `B` rewritten first. */
  function Reassociate(precedence: OperatorKind -> nat, left: Node, op: Token, inner: Node): (r: Result<Node>)
    requires Normal(left) && inner.BinaryExpression?
    ensures r.Ok? ==> Weight(r.value) <= Weight(BinaryExpression(left, op, inner)) && Normal(r.value)
    ensures r.Ok? ==> r.value.BinaryExpression?
    decreases Weight(BinaryExpression(left, op, inner)), 1
  {
    assert Weight(inner) == Weight(inner.left) + 2 * Weight(inner.right) + 1;
    var a := Rewrite(precedence, inner.left);
    if a.Failure? then a
    else
      var b := Rewrite(precedence, inner.right);
      if b.Failure? then b
      else
        var written := BinaryExpression(BinaryExpression(left, op, a.value), inner.op, b.value);
        assert Weight(written) == Weight(left) + 2 * Weight(a.value) + 2 * Weight(b.value) + 2;
        Rewrite(precedence, written)
  }

  /** The node `n` as its own fields stand once `Rewrite(n)` has returned
      (when it succeeds). The rewriter assigns `Root`, `Right` and `Left`
      in place (Rewriter.ts:36, 45, 55-65) and rewrites the nodes those
      fields hold in place too; the kind and the operator of a node are
      never assigned. */
  function Updated(precedence: OperatorKind -> nat, n: Node): (u: Node)
    ensures Weight(u) <= Weight(n)
    ensures n.UnaryExpression? ==> u.UnaryExpression? && u.operator == n.operator
    ensures n.BinaryExpression? ==> u.BinaryExpression? && u.op == n.op
    ensures n.ParenthesizedExpression? ==> u.ParenthesizedExpression?
    ensures n.Program? ==> u.Program? && |u.root| == |n.root|
    ensures n.NumberToken? || n.CellReference? || n.RangeReference? || n.OtherNode? ==> u == n
    ensures Rewrite(precedence, n).Ok? && Rewrite(precedence, u).Ok? ==>
      Spine(Rewrite(precedence, u).value) == Spine(Rewrite(precedence, n).value)
    decreases Weight(n), 7
  {
    match n
    case Program(root) =>
      var rs := RewriteAll(precedence, root);
      if rs.Failure? then n else Program(rs.value)
    case ParenthesizedExpression(x) => ParenthesizedExpression(Updated(precedence, x))
    case UnaryExpression(op, x) => UpdatedUnary(precedence, op, x)
    case BinaryExpression(l, op, x) => UpdatedBinary(precedence, l, op, x)
    case _ => n
  }

  /** A unary node after `RewriteUnaryExpression`: after a collapse its
      operand is as the first rewrite left it; otherwise it holds the
      second result, which unary plus rewrites once more in place. */
  function UpdatedUnary(precedence: OperatorKind -> nat, op: Token, x: Node): (u: Node)
    ensures Weight(u) <= Weight(UnaryExpression(op, x))
    ensures u.UnaryExpression? && u.operator == op
    ensures RewriteUnary(precedence, op, x).Ok? && Rewrite(precedence, u).Ok? ==>
      Spine(Rewrite(precedence, u).value) == Spine(RewriteUnary(precedence, op, x).value)
    decreases Weight(UnaryExpression(op, x)), 6
  {
    var first := Rewrite(precedence, x);
    if first.Failure? then UnaryExpression(op, x)
    else if first.value.UnaryExpression? && first.value.operator.kind == op.kind then
      var u := UnaryExpression(op, Updated(precedence, x));
      var again := Rewrite(precedence, Updated(precedence, x));
      if again.Failure? then u
      else
        SameSpine(again.value, first.value);
        var r, r' := Rewrite(precedence, first.value.right), Rewrite(precedence, again.value.right);
        assert r.Ok? && r'.Ok? ==> Spine(r.value) == Spine(first.value.right) && Spine(r'.value) == Spine(again.value.right);
        u
    else
      var second := Rewrite(precedence, Updated(precedence, x));
      if second.Failure? then UnaryExpression(op, x)
      else if op.kind == PlusToken then
        var s := second.value;
        var u := UnaryExpression(op, Updated(precedence, s));
        assert Rewrite(precedence, s).Ok? ==> Spine(Rewrite(precedence, s).value) == Spine(s);
        assert Rewrite(precedence, Updated(precedence, s)).Ok? && Rewrite(precedence, Updated(precedence, Updated(precedence, s))).Ok? ==>
          Spine(Rewrite(precedence, Updated(precedence, Updated(precedence, s))).value) == Spine(Rewrite(precedence, Updated(precedence, s)).value);
        u
      else
        var s := second.value;
        assert Rewrite(precedence, s).Ok? ==> Spine(Rewrite(precedence, s).value) == Spine(s);
        UnaryExpression(op, s)
  }

  /** A binary node after `RewriteBinaryExpression`: it holds the stored
      left and right operands; before a re-association the two operands
      of the right one are rewritten in place. */
  function UpdatedBinary(precedence: OperatorKind -> nat, l: Node, op: Token, x: Node): (u: Node)
    ensures Weight(u) <= Weight(BinaryExpression(l, op, x))
    ensures u.BinaryExpression? && u.op == op
    decreases Weight(BinaryExpression(l, op, x)), 6
  {
    var left := LeftOperand(precedence, l);
    if left.Failure? then BinaryExpression(l, op, x)
    else
      var right := RightOperand(precedence, op, x);
      if right.Failure? then BinaryExpression(l, op, x)
      else if right.value.BinaryExpression? && precedence(right.value.op.kind) == precedence(op.kind) then
        var inner := right.value;
        BinaryExpression(left.value, op, BinaryExpression(Updated(precedence, inner.left), inner.op, Updated(precedence, inner.right)))
      else BinaryExpression(left.value, op, right.value)
  }

  /** `SwitchOperator`: `+` and `-` swap in binary nodes, recursively on both
      operands; parentheses and unary operators are stripped; a binary
      node with another operator keeps it and has its operands rewritten. */
  function Switch(precedence: OperatorKind -> nat, n: Node): (r: Result<Node>)
    ensures r.Ok? ==> Weight(r.value) <= Weight(n) && Normal(r.value)
    ensures r.Ok? ==> !r.value.UnaryExpression? && !r.value.ParenthesizedExpression?
    ensures n.Program? || n.OtherNode? ==> r == Failure(MissingSwitchMethod(KindName(n)))
    decreases Weight(n), 4
  {
    match n
    case NumberToken(_) => Ok(n)
    case CellReference(_, _) => Ok(n)
    case RangeReference(_) => Ok(n)
    case BinaryExpression(l, op, x) =>
      if op.kind == PlusToken || op.kind == MinusToken then
        var left := Switch(precedence, l);
        if left.Failure? then left
        else
          var right := Switch(precedence, x);
          if right.Failure? then right
          else
            var flipped := if op.kind == PlusToken then Token(MinusToken, "-") else Token(PlusToken, "+");
            Ok(BinaryExpression(left.value, flipped, right.value))
      else
        var left := Rewrite(precedence, l);
        if left.Failure? then left
        else
          var right := Rewrite(precedence, x);
          if right.Failure? then right
          else Ok(BinaryExpression(left.value, op, right.value))
    case ParenthesizedExpression(x) => Switch(precedence, x)
    case UnaryExpression(_, x) => Switch(precedence, x)
    case Program(_) => Failure(MissingSwitchMethod("Program"))
    case OtherNode(k) => Failure(MissingSwitchMethod(k))
  }

  /** Sums and differences of leaves, written with the operator tokens the
      switch itself produces. */
  predicate SignTree(n: Node)
  {
    match n
    case NumberToken(_) => true
    case CellReference(_, _) => true
    case RangeReference(_) => true
    case BinaryExpression(l, op, r) =>
      (op == Token(PlusToken, "+") || op == Token(MinusToken, "-")) && SignTree(l) && SignTree(r)
    case _ => false
  }

  /** On sums and differences the switch flips every operator, so switching
      twice gives the tree back. */
  lemma {:induction false} SwitchTwice(precedence: OperatorKind -> nat, n: Node)
    requires SignTree(n)
    ensures Switch(precedence, n).Ok? && SignTree(Switch(precedence, n).value)
    ensures Switch(precedence, Switch(precedence, n).value) == Ok(n)
  {
    if n.BinaryExpression? {
      SwitchTwice(precedence, n.left);
      SwitchTwice(precedence, n.right);
    }
  }

  /** Sums and differences bind looser than any other operator. */
  function AdditivePrecedence(k: OperatorKind): nat
  {
    if k == PlusToken || k == MinusToken then 1 else 2
  }

  /** A rewrite that depends on the in-place update. In
      `-(-(1 + -(2 + 3)) * 4)` the first rewrite of the outer operand stores
      the switched left operand `1 - (2 - 3)` in the product node; the
      second rewrite of that node re-associates it, giving
      `-(((1 - 2) - 3) * 4)`. */
  lemma RewriteSecondPass()
    ensures
      var plus, minus, times := Token(PlusToken, "+"), Token(MinusToken, "-"), Token(OtherOperator("*"), "*");
      var one, two, three, four := NumberToken("1"), NumberToken("2"), NumberToken("3"), NumberToken("4");
      var sum := BinaryExpression(one, plus, UnaryExpression(minus, ParenthesizedExpression(BinaryExpression(two, plus, three))));
      var e := UnaryExpression(minus, ParenthesizedExpression(BinaryExpression(UnaryExpression(minus, ParenthesizedExpression(sum)), times, four)));
      Rewrite(AdditivePrecedence, e)
      == Ok(UnaryExpression(minus, BinaryExpression(BinaryExpression(BinaryExpression(one, minus, two), minus, three), times, four)))
  {
    var minus, times := Token(MinusToken, "-"), Token(OtherOperator("*"), "*");
    var one, two, three, four := NumberToken("1"), NumberToken("2"), NumberToken("3"), NumberToken("4");
    var switched := BinaryExpression(one, minus, BinaryExpression(two, minus, three));
    var left := BinaryExpression(BinaryExpression(one, minus, two), minus, three);
    var product := ProductOperand();
    FirstPassStoresSwitch();
    SecondPassReassociates();
    assert Updated(AdditivePrecedence, ParenthesizedExpression(product)) == ParenthesizedExpression(BinaryExpression(switched, times, four));
  }

  /** The product of the example before any rewrite. */
  function ProductOperand(): Node
  {
    var plus, minus, times := Token(PlusToken, "+"), Token(MinusToken, "-"), Token(OtherOperator("*"), "*");
    var one, two, three, four := NumberToken("1"), NumberToken("2"), NumberToken("3"), NumberToken("4");
    var sum := BinaryExpression(one, plus, UnaryExpression(minus, ParenthesizedExpression(BinaryExpression(two, plus, three))));
    BinaryExpression(UnaryExpression(minus, ParenthesizedExpression(sum)), times, four)
  }

  /** The first rewrite of the product switches its unary left operand and
      stores the switched tree in the node. */
  lemma FirstPassStoresSwitch()
    ensures
      var minus, times := Token(MinusToken, "-"), Token(OtherOperator("*"), "*");
      var switched := BinaryExpression(NumberToken("1"), minus, BinaryExpression(NumberToken("2"), minus, NumberToken("3")));
      && Rewrite(AdditivePrecedence, ProductOperand()) == Ok(BinaryExpression(switched, times, NumberToken("4")))
      && Updated(AdditivePrecedence, ProductOperand()) == BinaryExpression(switched, times, NumberToken("4"))
  {
    var plus, minus := Token(PlusToken, "+"), Token(MinusToken, "-");
    var one, two, three := NumberToken("1"), NumberToken("2"), NumberToken("3");
    var s := BinaryExpression(one, plus, UnaryExpression(minus, BinaryExpression(two, plus, three)));
    NegatedSumKeepsInnerMinus();
    var switched := BinaryExpression(one, minus, BinaryExpression(two, minus, three));
    assert Switch(AdditivePrecedence, UnaryExpression(minus, s)) == Ok(switched);
    assert LeftOperand(AdditivePrecedence, ProductOperand().left) == Ok(switched);
  }

  /** `-(1 + -(2 + 3))` rewrites to `-(1 + -(2 + 3))` without parentheses:
      the inner minus stays, since its operand is not a minus. */
  lemma NegatedSumKeepsInnerMinus()
    ensures
      var plus, minus := Token(PlusToken, "+"), Token(MinusToken, "-");
      var one, two, three := NumberToken("1"), NumberToken("2"), NumberToken("3");
      var a := BinaryExpression(two, plus, three);
      var sum := BinaryExpression(one, plus, UnaryExpression(minus, ParenthesizedExpression(a)));
      Rewrite(AdditivePrecedence, UnaryExpression(minus, ParenthesizedExpression(sum)))
      == Ok(UnaryExpression(minus, BinaryExpression(one, plus, UnaryExpression(minus, a))))
  {
    var plus, minus := Token(PlusToken, "+"), Token(MinusToken, "-");
    var one, two, three := NumberToken("1"), NumberToken("2"), NumberToken("3");
    var precedence := AdditivePrecedence;
    var a := BinaryExpression(two, plus, three);
    var inner := UnaryExpression(minus, ParenthesizedExpression(a));
    var sum := BinaryExpression(one, plus, inner);
    var s := BinaryExpression(one, plus, UnaryExpression(minus, a));
    SumLosesParentheses();
    assert Updated(precedence, ParenthesizedExpression(sum)) == ParenthesizedExpression(s);
  }

  /** `1 + -(2 + 3)` loses its inner parentheses, keeps that shape in
      place, and is then left alone by a second rewrite. */
  lemma SumLosesParentheses()
    ensures
      var plus, minus := Token(PlusToken, "+"), Token(MinusToken, "-");
      var a := BinaryExpression(NumberToken("2"), plus, NumberToken("3"));
      var sum := BinaryExpression(NumberToken("1"), plus, UnaryExpression(minus, ParenthesizedExpression(a)));
      var s := BinaryExpression(NumberToken("1"), plus, UnaryExpression(minus, a));
      Rewrite(AdditivePrecedence, sum) == Ok(s) && Updated(AdditivePrecedence, sum) == s && Rewrite(AdditivePrecedence, s) == Ok(s)
  {
    var plus, minus := Token(PlusToken, "+"), Token(MinusToken, "-");
    var a := BinaryExpression(NumberToken("2"), plus, NumberToken("3"));
    InnerMinusStays();
    assert Rewrite(AdditivePrecedence, a) == Ok(a);
    assert Rewrite(AdditivePrecedence, UnaryExpression(minus, a)) == Ok(UnaryExpression(minus, a));
  }

  /** `-(2 + 3)` loses only its parentheses. */
  lemma InnerMinusStays()
    ensures
      var a := BinaryExpression(NumberToken("2"), Token(PlusToken, "+"), NumberToken("3"));
      Rewrite(AdditivePrecedence, UnaryExpression(Token(MinusToken, "-"), ParenthesizedExpression(a)))
      == Ok(UnaryExpression(Token(MinusToken, "-"), a))
  {
    var a := BinaryExpression(NumberToken("2"), Token(PlusToken, "+"), NumberToken("3"));
    assert Rewrite(AdditivePrecedence, a) == Ok(a);
    assert Updated(AdditivePrecedence, a) == a;
  }

  /** Rewriting the stored node again re-associates the switched operand. */
  lemma SecondPassReassociates()
    ensures
      var minus, times := Token(MinusToken, "-"), Token(OtherOperator("*"), "*");
      var one, two, three, four := NumberToken("1"), NumberToken("2"), NumberToken("3"), NumberToken("4");
      var switched := BinaryExpression(one, minus, BinaryExpression(two, minus, three));
      var left := BinaryExpression(BinaryExpression(one, minus, two), minus, three);
      Rewrite(AdditivePrecedence, BinaryExpression(switched, times, four)) == Ok(BinaryExpression(left, times, four))
  {
    var minus := Token(MinusToken, "-");
    var one, two, three := NumberToken("1"), NumberToken("2"), NumberToken("3");
    var precedence := AdditivePrecedence;
    var left := BinaryExpression(BinaryExpression(one, minus, two), minus, three);
    assert Rewrite(precedence, BinaryExpression(two, minus, three)) == Ok(BinaryExpression(two, minus, three));
    assert Rewrite(precedence, BinaryExpression(one, minus, two)) == Ok(BinaryExpression(one, minus, two));
    assert Rewrite(precedence, left) == Ok(left);
    assert Rewrite(precedence, BinaryExpression(one, minus, BinaryExpression(two, minus, three))) == Ok(left);
  }
}
