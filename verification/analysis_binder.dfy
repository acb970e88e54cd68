/** The binder of src/analysis/binder.ts.

    It turns a syntax tree into a bound tree whose cell references are
    runtime cells. A scope keeps the cells declared so far, by name, and a
    queue of the cell references bound since it was last cleared. Binding
    an assignment drains that queue: the target tracks every referenced
    cell, in source order, and each reference that is circular or names an
    undeclared cell is reported. The target is declared afterwards.

    The runtime cell is not part of this model. Cells live in `store`,
    addressed by handles that carry their name; `track` appends to a
    cell's dependencies, `clearDependencies` empties them, and
    `doesReference(c)` holds when `c` is among a cell's dependencies.
    `parseFloat` is the parameter `parseNumber`. */
module AnalysisBinder {
  import opened Common

  datatype Span = Span(start: nat, end: nat)

  datatype BinaryOperatorKind = PlusToken | MinusToken | StarToken | SlashToken | HatToken
  datatype UnaryOperatorKind = UnaryPlusToken | UnaryMinusToken

  datatype Node =
    | CompilationUnit(root: seq<Node>, span: Span)
    | NumberToken(text: string, span: Span)
    | CellReference(text: string, span: Span)
    | ParenthesizedExpression(expression: Node, span: Span)
    | UnaryExpression(unaryOperator: UnaryOperatorKind, right: Node, span: Span)
    | BinaryExpression(left: Node, binaryOperator: BinaryOperatorKind, right: Node, span: Span)
    | CellAssignment(target: Node, expression: Node, span: Span)
    | OtherSyntax(kind: string, span: Span)

  datatype BoundBinaryOperatorKind = Addition | Subtraction | Multiplication | Division | Exponentiation
  datatype BoundUnaryOperatorKind = Identity | Negation

  /** A runtime cell: where it lives in the store, and its name. */
  datatype CellHandle = CellHandle(id: nat, name: string)

  datatype Bound =
    | BoundCompilationUnit(root: seq<Bound>)
    | BoundNumericLiteral(value: real)
    | BoundCell(cell: CellHandle)
    | BoundBinaryExpression(left: Bound, op: BoundBinaryOperatorKind, right: Bound)
    | BoundUnaryExpression(unaryOp: BoundUnaryOperatorKind, operand: Bound)
    | BoundCellAssignment(target: CellHandle, assignment: Bound)
    | BoundErrorExpression(kind: string)

  datatype CellRecord = CellRecord(name: string, expression: Option<Bound>, dependencies: seq<CellHandle>)

  /** A bound cell reference waiting in the scope's queue. */
  datatype Reference = Reference(cell: CellHandle, span: Span)

  datatype Diagnostic =
    | BinderMethod(kind: string, span: Span)
    | CircularDependency(cell: string, reference: string, span: Span)
    | UndeclaredCell(name: string, span: Span)
    | CantUseAsAReference(kind: string, span: Span)

  function KindName(n: Node): string
  {
    match n
    case CompilationUnit(_, _) => "CompilationUnit"
    case NumberToken(_, _) => "NumberToken"
    case CellReference(_, _) => "CellReference"
    case ParenthesizedExpression(_, _) => "ParenthesizedExpression"
    case UnaryExpression(_, _, _) => "UnaryExpression"
    case BinaryExpression(_, _, _, _) => "BinaryExpression"
    case CellAssignment(_, _, _) => "CellAssignment"
    case OtherSyntax(k, _) => k
  }

  /** Each syntax operator has its own bound kind, and each bound kind
      comes from exactly one operator. */
  function BindBinaryOperatorKind(k: BinaryOperatorKind): (r: BoundBinaryOperatorKind)
    ensures r == Addition <==> k == PlusToken
    ensures r == Subtraction <==> k == MinusToken
    ensures r == Multiplication <==> k == StarToken
    ensures r == Division <==> k == SlashToken
    ensures r == Exponentiation <==> k == HatToken
  {
    match k
    case PlusToken => Addition
    case MinusToken => Subtraction
    case StarToken => Multiplication
    case SlashToken => Division
    case HatToken => Exponentiation
  }

  /** Prefix `+` is the identity and prefix `-` the negation, and no
      other way round. */
  function BindUnaryOperatorKind(k: UnaryOperatorKind): (r: BoundUnaryOperatorKind)
    ensures r == Identity <==> k == UnaryPlusToken
    ensures r == Negation <==> k == UnaryMinusToken
  {
    match k
    case UnaryPlusToken => Identity
    case UnaryMinusToken => Negation
  }

  /** The bound tree `b` is what binding `n` gives, up to which runtime cell
      each reference resolves to: operators mapped, parentheses dropped,
      numbers parsed, unknown kinds turned into error nodes. */
  predicate BindsTo(parseNumber: string -> real, n: Node, b: Bound)
  {
    match n
    case CompilationUnit(root, _) =>
      && b.BoundCompilationUnit? && |b.root| == |root|
      && forall i | 0 <= i < |root| :: BindsTo(parseNumber, root[i], b.root[i])
    case NumberToken(text, _) => b == BoundNumericLiteral(parseNumber(text))
    case CellReference(text, _) => b.BoundCell? && b.cell.name == text
    case ParenthesizedExpression(e, _) => BindsTo(parseNumber, e, b)
    case UnaryExpression(op, e, _) =>
      b.BoundUnaryExpression? && b.unaryOp == BindUnaryOperatorKind(op) && BindsTo(parseNumber, e, b.operand)
    case BinaryExpression(l, op, r, _) =>
      && b.BoundBinaryExpression? && b.op == BindBinaryOperatorKind(op)
      && BindsTo(parseNumber, l, b.left) && BindsTo(parseNumber, r, b.right)
    case CellAssignment(t, e, _) =>
      if t.CellReference? then b.BoundCellAssignment? && b.target.name == t.text && BindsTo(parseNumber, e, b.assignment)
      else b == BoundErrorExpression("CellAssignment")
    case OtherSyntax(k, _) => b == BoundErrorExpression(k)
  }

  /** An expression without assignments or compilation units inside. */
  predicate Flat(n: Node)
  {
    match n
    case CompilationUnit(_, _) => false
    case CellAssignment(_, _, _) => false
    case ParenthesizedExpression(e, _) => Flat(e)
    case UnaryExpression(_, e, _) => Flat(e)
    case BinaryExpression(l, _, r, _) => Flat(l) && Flat(r)
    case _ => true
  }

  /** The cell references of an expression in the order they are bound. */
  function CellNodes(n: Node): (r: seq<Node>)
    ensures forall i | 0 <= i < |r| :: r[i].CellReference?
  {
    match n
    case CellReference(_, _) => [n]
    case ParenthesizedExpression(e, _) => CellNodes(e)
    case UnaryExpression(_, e, _) => CellNodes(e)
    case BinaryExpression(l, _, r, _) => CellNodes(l) + CellNodes(r)
    case _ => []
  }

  /** The diagnostics of the unknown node kinds of an expression, in order. */
  function Unknowns(n: Node): seq<Diagnostic>
  {
    match n
    case OtherSyntax(k, s) => [BinderMethod(k, s)]
    case ParenthesizedExpression(e, _) => Unknowns(e)
    case UnaryExpression(_, e, _) => Unknowns(e)
    case BinaryExpression(l, _, r, _) => Unknowns(l) + Unknowns(r)
    case _ => []
  }

  /** `r` is the queued reference for the cell reference node `c`: a
      declared name resolves to the declared cell, any other name to a
      cell created after the first `firstFresh` ones. */
  predicate RefFor(r: Reference, c: Node, declared: map<string, CellHandle>, firstFresh: nat)
    requires c.CellReference?
  {
    && r.cell.name == c.text && r.span == c.span
    && (c.text in declared ==> r.cell == declared[c.text])
    && (c.text !in declared ==> r.cell.id >= firstFresh)
  }

  predicate RefsFor(added: seq<Reference>, cells: seq<Node>, declared: map<string, CellHandle>, firstFresh: nat)
    requires forall i | 0 <= i < |cells| :: cells[i].CellReference?
  {
    |added| == |cells| && forall i | 0 <= i < |added| :: RefFor(added[i], cells[i], declared, firstFresh)
  }

  /** Whether queued reference `r` is circular for `target`: it is the
      target itself, or its cell already depends on the target. */
  predicate Circular(store: seq<CellRecord>, target: CellHandle, r: Reference)
  {
    r.cell == target || (r.cell.id < |store| && r.cell.id != target.id && target in store[r.cell.id].dependencies)
  }

  /** What draining one queued reference reports. */
  function ReportsFor(store: seq<CellRecord>, declared: map<string, CellHandle>, target: CellHandle, r: Reference): seq<Diagnostic>
  {
    (if Circular(store, target, r) then [CircularDependency(target.name, r.cell.name, r.span)] else [])
    + (if r.cell.name in declared then [] else [UndeclaredCell(r.cell.name, r.span)])
  }

  /** What draining the queue `refs` reports, in queue order. */
  function Reports(store: seq<CellRecord>, declared: map<string, CellHandle>, target: CellHandle, refs: seq<Reference>): seq<Diagnostic>
  {
    if refs == [] then []
    else Reports(store, declared, target, refs[..|refs| - 1]) + ReportsFor(store, declared, target, refs[|refs| - 1])
  }

  function Cells(refs: seq<Reference>): (r: seq<CellHandle>)
    ensures |r| == |refs| && forall i | 0 <= i < |refs| :: r[i] == refs[i].cell
  {
    seq(|refs|, i requires 0 <= i < |refs| => refs[i].cell)
  }

  function UndeclaredOf(declared: map<string, CellHandle>, refs: seq<Reference>): seq<Diagnostic>
  {
    if refs == [] then []
    else
      var r := refs[|refs| - 1];
      UndeclaredOf(declared, refs[..|refs| - 1]) + (if r.cell.name in declared then [] else [UndeclaredCell(r.cell.name, r.span)])
  }

  function CircularOf(store: seq<CellRecord>, target: CellHandle, refs: seq<Reference>): seq<Diagnostic>
  {
    if refs == [] then []
    else
      var r := refs[|refs| - 1];
      CircularOf(store, target, refs[..|refs| - 1])
      + (if Circular(store, target, r) then [CircularDependency(target.name, r.cell.name, r.span)] else [])
  }

  function Undeclared(ds: seq<Diagnostic>): seq<Diagnostic>
  {
    if ds == [] then [] else Undeclared(ds[..|ds| - 1]) + (if ds[|ds| - 1].UndeclaredCell? then [ds[|ds| - 1]] else [])
  }

  function Circulars(ds: seq<Diagnostic>): seq<Diagnostic>
  {
    if ds == [] then [] else Circulars(ds[..|ds| - 1]) + (if ds[|ds| - 1].CircularDependency? then [ds[|ds| - 1]] else [])
  }

  lemma {:induction false} FiltersAppend(a: seq<Diagnostic>, b: seq<Diagnostic>)
    ensures Undeclared(a + b) == Undeclared(a) + Undeclared(b)
    ensures Circulars(a + b) == Circulars(a) + Circulars(b)
    decreases |b|
  {
    if b == [] {
      assert a + b == a;
    } else {
      var front, last := b[..|b| - 1], b[|b| - 1];
      assert (a + b)[..|a + b| - 1] == a + front;
      assert (a + b)[|a + b| - 1] == last;
      FiltersAppend(a, front);
      AppendAssociative(Undeclared(a), Undeclared(front), if last.UndeclaredCell? then [last] else []);
      AppendAssociative(Circulars(a), Circulars(front), if last.CircularDependency? then [last] else []);
    }
  }

  /** Draining reports one undeclared-cell diagnostic for each queued
      reference to a name not declared, and one circular-dependency
      diagnostic for each circular reference, each in queue order. */
  lemma {:induction false} ReportsSplit(store: seq<CellRecord>, declared: map<string, CellHandle>, target: CellHandle, refs: seq<Reference>)
    ensures Undeclared(Reports(store, declared, target, refs)) == UndeclaredOf(declared, refs)
    ensures Circulars(Reports(store, declared, target, refs)) == CircularOf(store, target, refs)
    ensures |Reports(store, declared, target, refs)| == |UndeclaredOf(declared, refs)| + |CircularOf(store, target, refs)|
  {
    if refs != [] {
      var front := refs[..|refs| - 1];
      var r := refs[|refs| - 1];
      ReportsSplit(store, declared, target, front);
      ReportsForSplit(store, declared, target, r);
      FiltersAppend(Reports(store, declared, target, front), ReportsFor(store, declared, target, r));
    }
  }

  /** Draining one reference reports the circular dependency, if any,
      before the undeclared cell, if any. */
  lemma ReportsForSplit(store: seq<CellRecord>, declared: map<string, CellHandle>, target: CellHandle, r: Reference)
    ensures var c: seq<Diagnostic> := if Circular(store, target, r) then [CircularDependency(target.name, r.cell.name, r.span)] else [];
      var u: seq<Diagnostic> := if r.cell.name in declared then [] else [UndeclaredCell(r.cell.name, r.span)];
      && ReportsFor(store, declared, target, r) == c + u
      && Undeclared(ReportsFor(store, declared, target, r)) == u
      && Circulars(ReportsFor(store, declared, target, r)) == c
  {
    var c: seq<Diagnostic> := if Circular(store, target, r) then [CircularDependency(target.name, r.cell.name, r.span)] else [];
    var u: seq<Diagnostic> := if r.cell.name in declared then [] else [UndeclaredCell(r.cell.name, r.span)];
    FiltersAppend(c, u);
    FiltersAppend([], c);
    FiltersAppend([], u);
  }

  /** Reports depend on the store only through the records of cells other
      than the target. */
  lemma {:induction false} ReportsIgnoreTarget(s1: seq<CellRecord>, s2: seq<CellRecord>, declared: map<string, CellHandle>, target: CellHandle, refs: seq<Reference>)
    requires |s1| == |s2| && forall i | 0 <= i < |s1| && i != target.id :: s1[i] == s2[i]
    ensures Reports(s1, declared, target, refs) == Reports(s2, declared, target, refs)
  {
    if refs != [] {
      ReportsIgnoreTarget(s1, s2, declared, target, refs[..|refs| - 1]);
    }
  }

  class Binder {
    var references: seq<Reference>
    var declared: map<string, CellHandle>
    var store: seq<CellRecord>
    var diagnostics: seq<Diagnostic>
    const parseNumber: string -> real

    ghost predicate Resolves(h: CellHandle)
      reads this
    {
      h.id < |store| && store[h.id].name == h.name
    }

    /** Every declared and queued cell is a cell of the store with that
        name, and declared cells are filed under their own name. */
    ghost predicate Valid()
      reads this
    {
      && (forall name | name in declared :: declared[name].name == name && Resolves(declared[name]))
      && (forall i | 0 <= i < |references| :: Resolves(references[i].cell))
    }

    /** `b` keeps the cells of `a` under their names and may add more. */
    ghost predicate Grows(a: seq<CellRecord>, b: seq<CellRecord>)
    {
      |a| <= |b| && forall i | 0 <= i < |a| :: b[i].name == a[i].name
    }

    constructor (parse: string -> real)
      ensures Valid() && parseNumber == parse
      ensures references == [] && declared == map[] && store == [] && diagnostics == []
    {
      parseNumber := parse;
      references, declared, store, diagnostics := [], map[], [], [];
    }

    /** `createCell`: the declared cell of that name, or a new one. */
    method CreateCell(name: string) returns (h: CellHandle)
      requires Valid()
      modifies this`store
      ensures Valid() && Resolves(h) && h.name == name
      ensures name in declared ==> h == declared[name] && store == old(store)
      ensures name !in declared ==> h.id == |old(store)| && store == old(store) + [CellRecord(name, None, [])]
    {
      if name in declared {
        h := declared[name];
        return;
      }
      h := CellHandle(|store|, name);
      store := store + [CellRecord(name, None, [])];
    }

    method ClearStack()
      modifies this`references
      ensures references == []
    {
      references := [];
    }

    /** `nextReference`: the queue is first in, first out. */
    method NextReference() returns (r: Reference)
      requires |references| > 0
      modifies this`references
      ensures r == old(references)[0] && references == old(references)[1..]
    {
      r := references[0];
      references := references[1..];
    }

    method RegisterReference(r: Reference)
      modifies this`references
      ensures references == old(references) + [r]
    {
      references := references + [r];
    }

    /** `declareCell`: afterwards the cell's name is declared, as this
        cell, and every other name is as before. */
    method DeclareCell(h: CellHandle)
      modifies this`declared
      ensures declared == old(declared)[h.name := h]
      ensures h.name in declared && forall n | n != h.name :: (n in declared <==> n in old(declared))
    {
      declared := declared[h.name := h];
    }

    function IsDeclared(name: string): bool
      reads this
    {
      name in declared
    }

    /** `bind`: dispatch on the node kind; an unknown kind is reported and
        bound to an error node. */
    method Bind(n: Node) returns (b: Bound)
      requires Valid()
      modifies this
      ensures Valid() && Grows(old(store), store) && old(diagnostics) <= diagnostics
      ensures old(declared).Keys <= declared.Keys
      ensures BindsTo(parseNumber, n, b)
      ensures Flat(n) ==> FlatEffect(old(references), old(declared), old(store), old(diagnostics), n)
      decreases n, 3
    {
      match n
      case CompilationUnit(_, _) => b := BindProgram(n);
      case NumberToken(text, _) => b := BoundNumericLiteral(parseNumber(text));
      case CellReference(_, _) =>
        var h := BindCellReference(n);
        b := BoundCell(h);
      case ParenthesizedExpression(e, _) => b := Bind(e);
      case UnaryExpression(_, _, _) => b := BindUnaryExpression(n);
      case BinaryExpression(_, _, _, _) => b := BindBinaryExpression(n);
      case CellAssignment(_, _, _) => b := BindCellAssignment(n);
      case OtherSyntax(k, s) =>
        diagnostics := diagnostics + [BinderMethod(k, s)];
        b := BoundErrorExpression(k);
    }

    /** Binding an expression without assignments leaves the declarations
        alone, queues one reference per cell reference in order, only adds
        new cells to the store, and reports only unknown kinds. */
    ghost predicate FlatEffect(refs: seq<Reference>, names: map<string, CellHandle>, cells: seq<CellRecord>,
                               diags: seq<Diagnostic>, n: Node)
      reads this
    {
      && declared == names
      && |refs| <= |references| && references[..|refs|] == refs
      && RefsFor(references[|refs|..], CellNodes(n), names, |cells|)
      && |cells| <= |store| && store[..|cells|] == cells
      && (forall i | |cells| <= i < |store| :: store[i].expression == None && store[i].dependencies == [])
      && diagnostics == diags + Unknowns(n)
    }

    method BindProgram(n: Node) returns (b: Bound)
      requires Valid() && n.CompilationUnit?
      modifies this
      ensures Valid() && Grows(old(store), store) && old(diagnostics) <= diagnostics
      ensures old(declared).Keys <= declared.Keys
      ensures BindsTo(parseNumber, n, b)
      decreases n, 0
    {
      var root: seq<Bound> := [];
      for i := 0 to |n.root|
        invariant Valid() && Grows(old(store), store) && old(diagnostics) <= diagnostics
        invariant old(declared).Keys <= declared.Keys
        invariant |root| == i && forall j | 0 <= j < i :: BindsTo(parseNumber, n.root[j], root[j])
      {
        var statement := Bind(n.root[i]);
        root := root + [statement];
      }
      b := BoundCompilationUnit(root);
    }

    /** `bindCellReference`: the cell is created or looked up, and its
        reference queued. */
    method BindCellReference(n: Node) returns (h: CellHandle)
      requires Valid() && n.CellReference?
      modifies this`store, this`references
      ensures Valid() && Resolves(h) && h.name == n.text
      ensures references == old(references) + [Reference(h, n.span)]
      ensures n.text in declared ==> h == declared[n.text] && store == old(store)
      ensures n.text !in declared ==> h.id == |old(store)| && store == old(store) + [CellRecord(n.text, None, [])]
    {
      h := CreateCell(n.text);
      RegisterReference(Reference(h, n.span));
    }

    method BindUnaryExpression(n: Node) returns (b: Bound)
      requires Valid() && n.UnaryExpression?
      modifies this
      ensures Valid() && Grows(old(store), store) && old(diagnostics) <= diagnostics
      ensures old(declared).Keys <= declared.Keys
      ensures BindsTo(parseNumber, n, b)
      ensures Flat(n) ==> FlatEffect(old(references), old(declared), old(store), old(diagnostics), n)
      decreases n, 0
    {
      var right := Bind(n.right);
      b := BoundUnaryExpression(BindUnaryOperatorKind(n.unaryOperator), right);
    }

    method BindBinaryExpression(n: Node) returns (b: Bound)
      requires Valid() && n.BinaryExpression?
      modifies this
      ensures Valid() && Grows(old(store), store) && old(diagnostics) <= diagnostics
      ensures old(declared).Keys <= declared.Keys
      ensures BindsTo(parseNumber, n, b)
      ensures Flat(n) ==> FlatEffect(old(references), old(declared), old(store), old(diagnostics), n)
      decreases n, 0
    {
      ghost var refs0, store0 := references, store;
      var left := Bind(n.left);
      ghost var refs1, store1, diags1 := references, store, diagnostics;
      var operator := BindBinaryOperatorKind(n.binaryOperator);
      var right := Bind(n.right);
      b := BoundBinaryExpression(left, operator, right);
      if Flat(n) {
        assert references[|refs0|..] == refs1[|refs0|..] + references[|refs1|..];
        assert RefsFor(references[|refs0|..], CellNodes(n.left) + CellNodes(n.right), declared, |store0|);
        assert store[..|store0|] == store1[..|store0|];
        assert forall i | |store0| <= i < |store| :: store[i].expression == None && store[i].dependencies == [] by {
          forall i | |store0| <= i < |store|
            ensures store[i].expression == None && store[i].dependencies == []
          {
            if i < |store1| {
              assert store[i] == store[..|store1|][i] == store1[i];
            }
          }
        }
        AppendAssociative(old(diagnostics), Unknowns(n.left), Unknowns(n.right));
      }
    }

    /** `bindCellAssignment`. For a cell target: the target cell gets the
        bound expression, is declared afterwards and the queue is left
        empty. When the expression holds no assignment of its own, the
        target also tracks exactly the expression's references in order,
        the draining reports of `Reports` follow the expression's own
        diagnostics, and the target is the only new declaration. Any other
        target is reported; its expression is still bound. */
    method BindCellAssignment(n: Node) returns (b: Bound)
      requires Valid() && n.CellAssignment?
      modifies this
      ensures Valid() && Grows(old(store), store) && old(diagnostics) <= diagnostics
      ensures old(declared).Keys <= declared.Keys
      ensures BindsTo(parseNumber, n, b)
      ensures n.target.CellReference? ==>
        var name := n.target.text;
        && b.BoundCellAssignment? && Resolves(b.target)
        && (name in old(declared) ==> b.target == old(declared)[name])
        && (name !in old(declared) ==> b.target.id == |old(store)|)
        && name in declared && declared[name] == b.target
        && references == []
        && store[b.target.id].expression == Some(b.assignment)
      ensures n.target.CellReference? && Flat(n.expression) ==>
        && declared == old(declared)[n.target.text := b.target]
        && exists tracked: seq<Reference> ::
          && RefsFor(tracked, CellNodes(n.expression), old(declared), |old(store)|)
          && store[b.target.id].dependencies == Cells(tracked)
          && diagnostics == old(diagnostics) + Unknowns(n.expression) + Reports(store, old(declared), b.target, tracked)
      ensures !n.target.CellReference? ==>
        && b == BoundErrorExpression("CellAssignment")
        && |diagnostics| > |old(diagnostics)|
        && diagnostics[|old(diagnostics)|] == CantUseAsAReference(KindName(n.target), n.target.span)
      decreases n, 2
    {
      if n.target.CellReference? {
        b := AssignCell(n);
      } else {
        diagnostics := diagnostics + [CantUseAsAReference(KindName(n.target), n.target.span)];
        ghost var reported := diagnostics;
        var discarded := Bind(n.expression);
        b := BoundErrorExpression("CellAssignment");
        assert diagnostics[|old(diagnostics)|] == reported[|old(diagnostics)|];
      }
    }

    /** The cell-target branch of `bindCellAssignment`. */
    method AssignCell(n: Node) returns (b: Bound)
      requires Valid() && n.CellAssignment? && n.target.CellReference?
      modifies this
      ensures Valid() && Grows(old(store), store) && old(diagnostics) <= diagnostics
      ensures old(declared).Keys <= declared.Keys
      ensures b.BoundCellAssignment? && b.target.name == n.target.text && BindsTo(parseNumber, n.expression, b.assignment)
      ensures Resolves(b.target) && store[b.target.id].expression == Some(b.assignment)
      ensures n.target.text in old(declared) ==> b.target == old(declared)[n.target.text]
      ensures n.target.text !in old(declared) ==> b.target.id == |old(store)|
      ensures n.target.text in declared && declared[n.target.text] == b.target && references == []
      ensures Flat(n.expression) ==>
        && declared == old(declared)[n.target.text := b.target]
        && exists tracked: seq<Reference> ::
          && RefsFor(tracked, CellNodes(n.expression), old(declared), |old(store)|)
          && store[b.target.id].dependencies == Cells(tracked)
          && diagnostics == old(diagnostics) + Unknowns(n.expression) + Reports(store, old(declared), b.target, tracked)
      decreases n, 1
    {
      var left, expression := BindTargetAndExpression(n);
      ghost var tracked := references;
      Settle(left, expression);
      b := BoundCellAssignment(left, expression);
      if Flat(n.expression) {
        assert store[left.id].dependencies == Cells(tracked);
      }
    }

    /** The first half of the cell-target branch: the target cell is
        created or looked up, the queue cleared, and the expression bound,
        which queues exactly the expression's references. */
    method BindTargetAndExpression(n: Node) returns (left: CellHandle, expression: Bound)
      requires Valid() && n.CellAssignment? && n.target.CellReference?
      modifies this
      ensures Valid() && Grows(old(store), store) && old(diagnostics) <= diagnostics
      ensures old(declared).Keys <= declared.Keys
      ensures Resolves(left) && left.name == n.target.text && BindsTo(parseNumber, n.expression, expression)
      ensures n.target.text in old(declared) ==> left == old(declared)[n.target.text]
      ensures n.target.text !in old(declared) ==> left.id == |old(store)|
      ensures Flat(n.expression) ==>
        && declared == old(declared)
        && RefsFor(references, CellNodes(n.expression), old(declared), |old(store)|)
        && diagnostics == old(diagnostics) + Unknowns(n.expression)
      decreases n, 0
    {
      left := BindCellReference(n.target);
      ClearStack();
      ghost var store1 := store;
      expression := Bind(n.expression);
      if Flat(n.expression) {
        assert references == references[0..];
        assert RefsFor(references, CellNodes(n.expression), old(declared), |old(store)|);
      }
    }

    /** The second half of the cell-target branch: the target gets its
        expression, tracks the queued references while they are drained,
        and is declared; the queue is left empty. */
    method Settle(left: CellHandle, expression: Bound)
      requires Valid() && Resolves(left)
      modifies this
      ensures Valid() && Grows(old(store), store) && old(diagnostics) <= diagnostics && Resolves(left)
      ensures declared == old(declared)[left.name := left] && references == []
      ensures store[left.id].expression == Some(expression) && store[left.id].dependencies == Cells(old(references))
      ensures diagnostics == old(diagnostics) + Reports(store, old(declared), left, old(references))
    {
      SetExpression(left, expression);
      ghost var drained := store;
      Drain(left);
      ReportsIgnoreTarget(drained, store, declared, left, old(references));
      assert Grows(old(store), store);
      DeclareCell(left);
      ClearStack();
    }

    /** `left.expression = expression` followed by `left.clearDependencies()`. */
    method SetExpression(h: CellHandle, e: Bound)
      requires Valid() && Resolves(h)
      modifies this`store
      ensures Valid() && Grows(old(store), store) && Resolves(h)
      ensures store == old(store)[h.id := old(store)[h.id].(expression := Some(e), dependencies := [])]
    {
      store := store[h.id := store[h.id].(expression := Some(e), dependencies := [])];
    }

    /** One turn of the `while (storesRef())` loop: the next queued
        reference is tracked by `target` and reported as `ReportsFor` says. */
    method DrainOne(target: CellHandle) returns (bound: Reference)
      requires Valid() && Resolves(target) && |references| > 0
      modifies this`references, this`store, this`diagnostics
      ensures Valid() && bound == old(references)[0] && references == old(references)[1..]
      ensures |store| == |old(store)|
      ensures forall i | 0 <= i < |store| && i != target.id :: store[i] == old(store)[i]
      ensures store[target.id] == old(store)[target.id].(dependencies := old(store)[target.id].dependencies + [bound.cell])
      ensures diagnostics == old(diagnostics) + ReportsFor(old(store), declared, target, bound)
    {
      bound := NextReference();
      assert Resolves(bound.cell);
      store := store[target.id := store[target.id].(dependencies := store[target.id].dependencies + [bound.cell])];
      var circular := target in store[bound.cell.id].dependencies;
      assert circular <==> Circular(old(store), target, bound);
      if circular {
        diagnostics := diagnostics + [CircularDependency(target.name, bound.cell.name, bound.span)];
      }
      if !IsDeclared(bound.cell.name) {
        diagnostics := diagnostics + [UndeclaredCell(bound.cell.name, bound.span)];
      }
    }

    /** The `while (storesRef())` loop: every queued reference is tracked
        by `target` in queue order and reported as `Reports` says. */
    method Drain(target: CellHandle)
      requires Valid() && Resolves(target)
      modifies this`references, this`store, this`diagnostics
      ensures Valid() && references == [] && Resolves(target) && Grows(old(store), store)
      ensures |store| == |old(store)|
      ensures forall i | 0 <= i < |store| && i != target.id :: store[i] == old(store)[i]
      ensures store[target.id] == old(store)[target.id].(dependencies := old(store)[target.id].dependencies + Cells(old(references)))
      ensures diagnostics == old(diagnostics) + Reports(old(store), declared, target, old(references))
    {
      ghost var queue := references;
      ghost var k := 0;
      while |references| > 0
        invariant Valid() && Resolves(target) && 0 <= k <= |queue| && references == queue[k..]
        invariant |store| == |old(store)|
        invariant forall i | 0 <= i < |store| && i != target.id :: store[i] == old(store)[i]
        invariant store[target.id] == old(store)[target.id].(dependencies := old(store)[target.id].dependencies + Cells(queue[..k]))
        invariant diagnostics == old(diagnostics) + Reports(old(store), declared, target, queue[..k])
        decreases |references|
      {
        ghost var before := diagnostics;
        ghost var current := store;
        var bound := DrainOne(target);
        assert bound == queue[k];
        assert queue[..k + 1][..k] == queue[..k];
        assert Cells(queue[..k + 1]) == Cells(queue[..k]) + [bound.cell];
        assert ReportsFor(current, declared, target, bound) == ReportsFor(old(store), declared, target, bound);
        AppendAssociative(old(diagnostics), Reports(old(store), declared, target, queue[..k]), ReportsFor(old(store), declared, target, bound));
        k := k + 1;
      }
      assert queue[..k] == queue;
    }
  }
}
