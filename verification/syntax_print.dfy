/** The syntax nodes of src/CodeAnalysis/SyntaxNode.ts and the tree
    printer of their `SyntaxTree`.

    The children of a node are its fields that are themselves syntax
    nodes, in the order the fields are declared; the `Kind` of a node and
    the `Referencing` names of a reference expression are not children. A
    token, whose fields are all plain values, has no children. The printer
    writes one line per descendant: the indentation, a connector, the
    child's kind and a line break, followed by the child's own subtree one
    level deeper. */
module SyntaxPrint {

  datatype SyntaxNode =
    | Token(kind: string, text: string)
    | SyntaxTree(kind: string, tree: SyntaxNode)
    | CellReference(kind: string, left: SyntaxNode, right: SyntaxNode)
    | RangeReference(kind: string, left: SyntaxNode, right: SyntaxNode)
    | ParenthesizedExpression(kind: string, left: SyntaxNode, expression: SyntaxNode, right: SyntaxNode)
    | UnaryExpression(kind: string, operator: SyntaxNode, right: SyntaxNode)
    | BinaryExpression(kind: string, left: SyntaxNode, operator: SyntaxNode, right: SyntaxNode)
    | ReferenceExpression(kind: string, reference: SyntaxNode, referencing: seq<string>, expression: SyntaxNode)

  /** `ChildNode`: a child and whether it is the last one. */
  datatype ChildNode = ChildNode(node: SyntaxNode, isLast: bool)

  /** The fields of `n` that are syntax nodes, in declaration order. */
  function Fields(n: SyntaxNode): (r: seq<SyntaxNode>)
    ensures forall i | 0 <= i < |r| :: r[i] < n
  {
    match n
    case Token(_, _) => []
    case SyntaxTree(_, t) => [t]
    case CellReference(_, l, r) => [l, r]
    case RangeReference(_, l, r) => [l, r]
    case ParenthesizedExpression(_, l, e, r) => [l, e, r]
    case UnaryExpression(_, o, r) => [o, r]
    case BinaryExpression(_, l, o, r) => [l, o, r]
    case ReferenceExpression(_, r, _, e) => [r, e]
  }

  /** `GetChildren`: every field that is a syntax node, in order, with
      `isLast` set exactly on the final one. */
  method GetChildren(n: SyntaxNode) returns (children: seq<ChildNode>)
    ensures |children| == |Fields(n)|
    ensures forall i | 0 <= i < |children| :: children[i].node == Fields(n)[i]
    ensures forall i | 0 <= i < |children| :: children[i].isLast <==> i == |children| - 1
  {
    var fields := Fields(n);
    children := [];
    for i := 0 to |fields|
      invariant |children| == i
      invariant forall j | 0 <= j < i :: children[j] == ChildNode(fields[j], j == |fields| - 1)
    {
      var isLastChild := i == |fields| - 1;
      children := children + [ChildNode(fields[i], isLastChild)];
    }
  }

  /** The connector in front of a child's kind. */
  function Connector(isLast: bool): (r: string)
    ensures |r| == 4 && '\n' !in r
  {
    if isLast then "└── " else "├── "
  }

  /** What the indentation grows by below a child. */
  function Pad(isLast: bool): (r: string)
    ensures |r| == 4 && '\n' !in r
  {
    if isLast then "    " else "│   "
  }

  /** The printed subtree below `n`, at the given indentation. */
  function Printed(n: SyntaxNode, indentation: string): (r: string)
    ensures Fields(n) == [] ==> r == ""
    decreases n, 1
  {
    PrintedFirst(n, |Fields(n)|, indentation)
  }

  /** The text after the first `k` children of `n`: for each, its line
      followed by its own subtree. */
  function PrintedFirst(n: SyntaxNode, k: nat, indentation: string): string
    requires k <= |Fields(n)|
    decreases n, 0, k
  {
    if k == 0 then ""
    else
      var child := Fields(n)[k - 1];
      var isLast := k == |Fields(n)|;
      PrintedFirst(n, k - 1, indentation)
        + (indentation + Connector(isLast) + child.kind + "\n" + Printed(child, indentation + Pad(isLast)))
  }

  /** `Print`: the children's lines and subtrees appended in order. */
  method Print(node: SyntaxNode, indentation: string) returns (text: string)
    ensures text == Printed(node, indentation)
    decreases node
  {
    text := "";
    var children := GetChildren(node);
    for i := 0 to |children|
      invariant text == PrintedFirst(node, i, indentation)
    {
      var child := children[i];
      var subtree := Print(child.node, indentation + (if child.isLast then "    " else "│   "));
      text := text + (indentation + (if child.isLast then "└── " else "├── ") + child.node.kind + "\n" + subtree);
    }
  }

  /** Children are printed in field order: the text for the first `k`
      children is a prefix of the whole printed subtree. */
  lemma {:induction false} PrintedInOrder(n: SyntaxNode, k: nat, indentation: string)
    requires k <= |Fields(n)|
    ensures PrintedFirst(n, k, indentation) <= Printed(n, indentation)
    decreases |Fields(n)| - k
  {
    if k < |Fields(n)| {
      PrintedInOrder(n, k + 1, indentation);
    }
  }

  /** `Print` with its defaults: a syntax tree printed from itself with no
      indentation. */
  method PrintTree(tree: SyntaxNode) returns (text: string)
    requires tree.SyntaxTree?
    ensures text == Connector(true) + tree.tree.kind + "\n" + Printed(tree.tree, Pad(true))
  {
    text := Print(tree, "");
    assert "" + Pad(true) == Pad(true);
    assert PrintedFirst(tree, 0, "") == "";
    assert Printed(tree, "") == "" + ("" + Connector(true) + tree.tree.kind + "\n" + Printed(tree.tree, "" + Pad(true)));
  }

  /** The number of nodes in the subtree of `n`. */
  function Size(n: SyntaxNode): (r: nat)
    ensures r >= 1
    decreases n, 1
  {
    1 + SizeFirst(n, |Fields(n)|)
  }

  function SizeFirst(n: SyntaxNode, k: nat): nat
    requires k <= |Fields(n)|
    decreases n, 0, k
  {
    if k == 0 then 0 else SizeFirst(n, k - 1) + Size(Fields(n)[k - 1])
  }

  /** No kind in the subtree of `n` holds a line break. */
  predicate Unbroken(n: SyntaxNode)
    decreases n
  {
    && '\n' !in n.kind
    && forall i | 0 <= i < |Fields(n)| :: Unbroken(Fields(n)[i])
  }

  /** The number of line breaks in `s`. */
  function Breaks(s: string): nat
  {
    if s == [] then 0 else (if s[0] == '\n' then 1 else 0) + Breaks(s[1..])
  }

  lemma {:induction false} BreaksAppend(a: string, b: string)
    ensures Breaks(a + b) == Breaks(a) + Breaks(b)
  {
    if a != [] {
      assert (a + b)[1..] == a[1..] + b;
      BreaksAppend(a[1..], b);
    } else {
      assert a + b == b;
    }
  }

  lemma {:induction false} NoBreaks(s: string)
    requires '\n' !in s
    ensures Breaks(s) == 0
  {
    if s != [] {
      NoBreaks(s[1..]);
    }
  }

  /** The printer writes exactly one line per descendant of `n`: as long as
      no kind and not the indentation holds a line break, the printed
      subtree holds one line break for every node below `n`. */
  lemma {:induction false} OneLinePerDescendant(n: SyntaxNode, indentation: string)
    requires Unbroken(n) && '\n' !in indentation
    ensures Breaks(Printed(n, indentation)) == Size(n) - 1
    decreases n, 1
  {
    OneLinePerChild(n, |Fields(n)|, indentation);
  }

  lemma {:induction false} OneLinePerChild(n: SyntaxNode, k: nat, indentation: string)
    requires k <= |Fields(n)|
    requires Unbroken(n) && '\n' !in indentation
    ensures Breaks(PrintedFirst(n, k, indentation)) == SizeFirst(n, k)
    decreases n, 0, k
  {
    if k > 0 {
      var child := Fields(n)[k - 1];
      var isLast := k == |Fields(n)|;
      var deeper := indentation + Pad(isLast);
      OneLinePerChild(n, k - 1, indentation);
      assert Unbroken(child);
      OneLinePerDescendant(child, deeper);
      OneLine(indentation + Connector(isLast), child.kind, Printed(child, deeper));
      BreaksAppend(PrintedFirst(n, k - 1, indentation),
        indentation + Connector(isLast) + child.kind + "\n" + Printed(child, deeper));
    }
  }

  /** A child's line holds exactly one line break, at its end. */
  lemma OneLine(lead: string, kind: string, rest: string)
    requires '\n' !in lead && '\n' !in kind
    ensures Breaks(lead + kind + "\n" + rest) == 1 + Breaks(rest)
  {
    NoBreaks(lead + kind);
    BreaksAppend(lead + kind, "\n");
    BreaksAppend(lead + kind + "\n", rest);
  }
}
