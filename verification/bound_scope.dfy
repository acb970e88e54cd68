/** The dependency-tracking scope of src/CodeAnalysis/Binder/BoundScope.ts.

    Each declared name owns a `Cell` holding its value, its expression, the
    names it depends on (`Dependencies`) and the names that depend on it
    (`Dependents`); both are JavaScript `Set`s, modelled as insertion-ordered
    sequences without duplicates. Declaring a cell first checks that it
    would not depend on itself through any chain of dependencies. Assigning
    a cell re-links it with its dependencies and then yields each of its
    direct dependents once.

    The model is of the root scope; how a scope with a parent looks a name
    up is the subject of `ResolveAsWritten` and `Resolve` below. Errors the
    source throws are returned as values; every one of them except the
    exhausted call stack is first reported in the scope's diagnostics. The
    depth of recursion the JavaScript engine allows is the parameter
    `stackDepth`. */
module CellScope {
  import opened Common

  datatype BoundExpression = BoundNumber(value: real) | OtherExpression(id: nat)

  /** A `BoundDeclarationStatement` as the scope reads it. */
  datatype Declaration = Declaration(name: string, dependencies: seq<string>, expression: BoundExpression)

  datatype ScopeError =
    | NameNotFound(name: string)
    | UsedBeforeItsDeclaration(name: string)
    | CircularDependency(name: string)
    | CallStackExceeded

  /** The fields of one cell, as a value. */
  datatype CellState = CellState(value: real, expression: BoundExpression, dependencies: seq<string>, dependents: seq<string>)

  type View = map<string, CellState>

  /** Every `Dependents` list is a set. */
  predicate SetsOfDependents(v: View)
  {
    forall k | k in v :: NoDuplicates(v[k].dependents)
  }

  /** What an operation leaves behind: a result or a thrown error, with the
      cells at that moment. */
  datatype Outcome<+T> = Returned(value: T, view: View) | Threw(error: ScopeError, view: View)

  // ---------------------------------------------------------------------
  // Looking a name up through a chain of scopes

  /** How a lookup through parent scopes ends: at the scope `depth` levels
      up, with no scope holding the name, or by exhausting the call stack. */
  datatype Resolution = Found(depth: nat) | NotFound | StackExhausted

  /** `ResolveScopeForCell` as written: when this scope does not hold the
      name and it has a parent, it calls itself again on the same scope.
      `chain[0]` holds the names of this scope, `chain[1]` its parent's,
      and so on; `fuel` is the call depth left. */
  function ResolveAsWritten(chain: seq<set<string>>, name: string, fuel: nat): (r: Resolution)
    requires |chain| > 0
    ensures r.Found? ==> r.depth == 0
  {
    if name in chain[0] then Found(0)
    else if |chain| > 1 then
      if fuel == 0 then StackExhausted else ResolveAsWritten(chain, name, fuel - 1)
    else NotFound
  }

  /** A name held only by a parent is never found: the lookup recurses on
      the same scope until the stack is exhausted, whatever its depth. */
  lemma {:induction false} ResolveAsWrittenNeverReachesParent(chain: seq<set<string>>, name: string, fuel: nat)
    requires |chain| > 1 && name !in chain[0] && name in chain[1]
    ensures ResolveAsWritten(chain, name, fuel) == StackExhausted
  {
    if fuel > 0 {
      ResolveAsWrittenNeverReachesParent(chain, name, fuel - 1);
    }
  }

  /** `ResolveScopeForCell` as intended: this scope if it holds the name,
      otherwise the parent's resolution. */
  function Resolve(chain: seq<set<string>>, name: string): (r: Resolution)
    ensures r.Found? ==>
      r.depth < |chain| && name in chain[r.depth] && forall i | 0 <= i < r.depth :: name !in chain[i]
    ensures r.NotFound? <==> forall i | 0 <= i < |chain| :: name !in chain[i]
    ensures !r.StackExhausted?
  {
    if chain == [] then NotFound
    else if name in chain[0] then Found(0)
    else
      var up := Resolve(chain[1..], name);
      assert forall i | 1 <= i < |chain| :: chain[i] == chain[1..][i - 1];
      if up.Found? then Found(up.depth + 1) else NotFound
  }

  /** The two agree on the root scope, which has no parent. */
  lemma ResolveAgreesOnRoot(names: set<string>, name: string, fuel: nat)
    ensures ResolveAsWritten([names], name, fuel) == Resolve([names], name)
  {
  }

  // ---------------------------------------------------------------------
  // DetectCircularDependencies

  /** `DetectCircularDependencies(name, deps)`: the error it throws, if any.
      The name in its own dependencies is used before its declaration;
      otherwise each dependency in order is looked up, is circular if it
      depends on the name directly, and is searched in depth. */
  function Detect(v: View, name: string, deps: seq<string>, fuel: nat): (r: Option<ScopeError>)
    ensures (r.Some? && r.value.UsedBeforeItsDeclaration?) <==> name in deps
    ensures name in deps ==> r == Some(UsedBeforeItsDeclaration(name))
    ensures r.Some? && r.value.NameNotFound? ==> r.value.name !in v
    decreases fuel, 1, 0
  {
    if name in deps then Some(UsedBeforeItsDeclaration(name)) else DetectEach(v, name, deps, fuel)
  }

  function DetectEach(v: View, name: string, deps: seq<string>, fuel: nat): (r: Option<ScopeError>)
    ensures r.Some? ==> !r.value.UsedBeforeItsDeclaration?
    ensures r.Some? && r.value.NameNotFound? ==> r.value.name !in v
    decreases fuel, 0, |deps|
  {
    if deps == [] then None
    else
      var d := deps[0];
      if d !in v then Some(NameNotFound(d))
      else if name in v[d].dependencies then Some(CircularDependency(d))
      else if fuel == 0 then Some(CallStackExceeded)
      else
        var inner := Detect(v, name, v[d].dependencies, fuel - 1);
        if inner.Some? then inner else DetectEach(v, name, deps[1..], fuel)
  }

  /** `name` is reached from `deps` by following at most `n` more
      `Dependencies` edges. */
  predicate Reaches(v: View, deps: seq<string>, name: string, n: nat)
    decreases n
  {
    exists i | 0 <= i < |deps| :: deps[i] == name || (n > 0 && deps[i] in v && Reaches(v, v[deps[i]].dependencies, name, n - 1))
  }

  /** When the check throws nothing, no chain of dependencies within the
      searched depth leads back to the name, and every name on the way is
      declared. */
  lemma {:induction false} NoErrorMeansNoCycle(v: View, name: string, deps: seq<string>, fuel: nat)
    requires Detect(v, name, deps, fuel).None?
    ensures !Reaches(v, deps, name, fuel + 1)
    ensures forall i | 0 <= i < |deps| :: deps[i] in v
    decreases fuel, 1, 0
  {
    NoErrorInEach(v, name, deps, fuel);
  }

  lemma {:induction false} NoErrorInEach(v: View, name: string, deps: seq<string>, fuel: nat)
    requires name !in deps && DetectEach(v, name, deps, fuel).None?
    ensures !Reaches(v, deps, name, fuel + 1)
    ensures forall i | 0 <= i < |deps| :: deps[i] in v
    decreases fuel, 0, |deps|
  {
    if deps != [] {
      var d := deps[0];
      NoErrorMeansNoCycle(v, name, v[d].dependencies, fuel - 1);
      NoErrorInEach(v, name, deps[1..], fuel);
      forall i | 0 <= i < |deps|
        ensures deps[i] in v
        ensures !(deps[i] == name || (fuel + 1 > 0 && deps[i] in v && Reaches(v, v[deps[i]].dependencies, name, fuel)))
      {
        if i > 0 {
          assert deps[i] == deps[1..][i - 1];
        }
      }
    }
  }

  /** A reported circular dependency names a cell that depends on the name
      directly. */
  lemma {:induction false} CircularMeansDirectEdge(v: View, name: string, deps: seq<string>, fuel: nat, d: string)
    requires Detect(v, name, deps, fuel) == Some(CircularDependency(d))
    ensures d in v && name in v[d].dependencies
    decreases fuel, 1, 0
  {
    CircularInEach(v, name, deps, fuel, d);
  }

  lemma {:induction false} CircularInEach(v: View, name: string, deps: seq<string>, fuel: nat, d: string)
    requires DetectEach(v, name, deps, fuel) == Some(CircularDependency(d))
    ensures d in v && name in v[d].dependencies
    decreases fuel, 0, |deps|
  {
    var e := deps[0];
    if e in v && name !in v[e].dependencies && fuel > 0 {
      if Detect(v, name, v[e].dependencies, fuel - 1).Some? {
        CircularMeansDirectEdge(v, name, v[e].dependencies, fuel - 1, d);
      } else {
        CircularInEach(v, name, deps[1..], fuel, d);
      }
    }
  }

  // ---------------------------------------------------------------------
  // Linking cells with their dependencies

  /** The `DoNotNotify` loop: for each of `deps` in order that is not in
      `keep`, the cell is looked up and `name` leaves its `Dependents`. */
  function Unnotify(v: View, name: string, deps: seq<string>, keep: seq<string>): (r: Outcome<()>)
    ensures r.view.Keys == v.Keys
    ensures r.Threw? ==> r.error.NameNotFound?
  {
    if deps == [] then Returned((), v)
    else
      var front := Unnotify(v, name, deps[..|deps| - 1], keep);
      var d := deps[|deps| - 1];
      if front.Threw? || d in keep then front
      else if d !in front.view then Threw(NameNotFound(d), front.view)
      else
        var w := front.view;
        Returned((), w[d := w[d].(dependents := SetDelete(w[d].dependents, name))])
  }

  /** The `Notify` loop: each of `deps` in order is looked up and `name`
      joins its `Dependents`. */
  function NotifyAll(v: View, name: string, deps: seq<string>): (r: Outcome<()>)
    ensures r.view.Keys == v.Keys
    ensures r.Threw? ==> r.error.NameNotFound?
  {
    if deps == [] then Returned((), v)
    else
      var front := NotifyAll(v, name, deps[..|deps| - 1]);
      var d := deps[|deps| - 1];
      if front.Threw? then front
      else if d !in front.view then Threw(NameNotFound(d), front.view)
      else
        var w := front.view;
        Returned((), w[d := w[d].(dependents := SetAdd(w[d].dependents, name))])
  }

  /** `TryDeclareCell`: after the circularity check, a new name gets a cell
      of value 0 with the given dependencies and no dependents (true); an
      existing cell is unlinked from the dependencies it drops and takes the
      new ones (false). */
  function TryDeclare(v: View, stackDepth: nat, node: Declaration): (r: Outcome<bool>)
    ensures r.Returned? ==> r.view.Keys == v.Keys + {node.name} && (r.value <==> node.name !in v)
    ensures r.Threw? ==> r.view.Keys == v.Keys
    ensures r.Threw? && !r.error.NameNotFound? ==> r.view == v && Detect(v, node.name, node.dependencies, stackDepth) == Some(r.error)
  {
    var cycle := Detect(v, node.name, node.dependencies, stackDepth);
    if cycle.Some? then Threw(cycle.value, v)
    else if node.name !in v then
      Returned(true, v[node.name := CellState(0.0, BoundNumber(0.0), node.dependencies, [])])
    else
      var unlinked := Unnotify(v, node.name, v[node.name].dependencies, node.dependencies);
      if unlinked.Threw? then Threw(unlinked.error, unlinked.view)
      else
        var w := unlinked.view;
        Returned(false, w[node.name := w[node.name].(dependencies := node.dependencies)])
  }

  /** The link step of `Assign`: the cell drops the dependencies the node
      does not keep, takes the node's, joins the `Dependents` of each, and
      takes the node's expression and the value. */
  function Relink(v: View, node: Declaration, value: real): (r: Outcome<()>)
    ensures r.view.Keys == v.Keys
    ensures node.name !in v ==> r == Threw(NameNotFound(node.name), v)
    ensures r.Threw? ==> r.error.NameNotFound?
  {
    if node.name !in v then Threw(NameNotFound(node.name), v)
    else
      var unlinked := Unnotify(v, node.name, v[node.name].dependencies, node.dependencies);
      if unlinked.Threw? then unlinked
      else
        var w := unlinked.view;
        var linked := NotifyAll(w[node.name := w[node.name].(dependencies := node.dependencies)], node.name, node.dependencies);
        if linked.Threw? then linked
        else
          var x := linked.view;
          Returned((), x[node.name := x[node.name].(expression := node.expression, value := value)])
  }

  /** After a successful relink the cell is among the `Dependents` of each
      of its new dependencies and of none it dropped, and holds the new
      dependencies, expression and value. */
  lemma RelinkLinks(v: View, node: Declaration, value: real)
    requires Relink(v, node, value).Returned?
    ensures var w := Relink(v, node, value).view;
      && node.name in w
      && w[node.name].dependencies == node.dependencies
      && w[node.name].expression == node.expression && w[node.name].value == value
      && (forall d | d in node.dependencies :: d in w && node.name in w[d].dependents)
      && (forall d | d in v[node.name].dependencies && d !in node.dependencies && d != node.name ::
            d in w && node.name !in w[d].dependents)
  {
    var unlinked := Unnotify(v, node.name, v[node.name].dependencies, node.dependencies);
    UnnotifyRemoves(v, node.name, v[node.name].dependencies, node.dependencies);
    var w := unlinked.view;
    var w1 := w[node.name := w[node.name].(dependencies := node.dependencies)];
    NotifyAllAdds(w1, node.name, node.dependencies);
  }

  /** Unlinking and linking keep every `Dependents` list a set, and so do
      declaring and assigning. */
  lemma {:induction false} UnnotifyKeepsSets(v: View, name: string, deps: seq<string>, keep: seq<string>)
    requires SetsOfDependents(v)
    ensures SetsOfDependents(Unnotify(v, name, deps, keep).view)
  {
    if deps != [] {
      UnnotifyKeepsSets(v, name, deps[..|deps| - 1], keep);
    }
  }

  lemma {:induction false} NotifyAllKeepsSets(v: View, name: string, deps: seq<string>)
    requires SetsOfDependents(v)
    ensures SetsOfDependents(NotifyAll(v, name, deps).view)
  {
    if deps != [] {
      NotifyAllKeepsSets(v, name, deps[..|deps| - 1]);
    }
  }

  /** What declaring does: a name among its own dependencies throws before
      anything changes; a new name gets a cell of value 0 with the given
      dependencies and no dependents; an existing cell takes the new
      dependencies and leaves the `Dependents` of each one it drops. */
  lemma TryDeclareEffects(v: View, stackDepth: nat, node: Declaration)
    ensures var r := TryDeclare(v, stackDepth, node);
      && (node.name in node.dependencies ==> r == Threw(UsedBeforeItsDeclaration(node.name), v))
      && (r.Returned? && node.name !in v ==>
            r.value && r.view == v[node.name := CellState(0.0, BoundNumber(0.0), node.dependencies, [])])
      && (r.Returned? && node.name in v ==>
            && !r.value && node.name in r.view && r.view[node.name].dependencies == node.dependencies
            && forall d | d in v[node.name].dependencies && d !in node.dependencies && d != node.name ::
                 d in r.view && node.name !in r.view[d].dependents)
  {
    if node.name in v && Unnotify(v, node.name, v[node.name].dependencies, node.dependencies).Returned? {
      UnnotifyRemoves(v, node.name, v[node.name].dependencies, node.dependencies);
    }
  }

  lemma DeclaringKeepsSets(v: View, stackDepth: nat, node: Declaration)
    requires SetsOfDependents(v)
    ensures SetsOfDependents(TryDeclare(v, stackDepth, node).view)
  {
    if node.name in v {
      UnnotifyKeepsSets(v, node.name, v[node.name].dependencies, node.dependencies);
    }
  }

  lemma AssigningKeepsSets(v: View, node: Declaration, value: real)
    requires SetsOfDependents(v)
    ensures SetsOfDependents(Relink(v, node, value).view)
  {
    if node.name in v {
      UnnotifyKeepsSets(v, node.name, v[node.name].dependencies, node.dependencies);
      var w := Unnotify(v, node.name, v[node.name].dependencies, node.dependencies).view;
      NotifyAllKeepsSets(w[node.name := w[node.name].(dependencies := node.dependencies)], node.name, node.dependencies);
    }
  }

  lemma {:induction false} UnnotifyRemoves(v: View, name: string, deps: seq<string>, keep: seq<string>)
    requires Unnotify(v, name, deps, keep).Returned?
    ensures var w := Unnotify(v, name, deps, keep).view;
      && (forall d | d in deps && d !in keep :: d in w && name !in w[d].dependents)
      && (forall d | d in v && d !in deps :: w[d] == v[d])
      && (forall d | d in v :: w[d].dependencies == v[d].dependencies)
  {
    if deps != [] {
      var front := deps[..|deps| - 1];
      UnnotifyRemoves(v, name, front, keep);
      assert forall d | d in deps :: d in front || d == deps[|deps| - 1];
    }
  }

  /** Notifying only adds `name` to `Dependents`: every other member, and
      every other field and cell, stays. */
  lemma {:induction false} NotifyAllAdds(v: View, name: string, deps: seq<string>)
    requires NotifyAll(v, name, deps).Returned?
    ensures var w := NotifyAll(v, name, deps).view;
      && (forall d | d in deps :: d in w && name in w[d].dependents)
      && (forall d | d in v && d !in deps :: w[d] == v[d])
      && (forall d | d in v :: w[d].dependencies == v[d].dependencies && w[d].value == v[d].value
            && w[d].expression == v[d].expression)
      && (forall d, x | d in v && x in v[d].dependents :: x in w[d].dependents)
  {
    if deps != [] {
      var front := deps[..|deps| - 1];
      NotifyAllAdds(v, name, front);
      assert forall d | d in deps :: d in front || d == deps[|deps| - 1];
    }
  }

  // ---------------------------------------------------------------------
  // DetectAndNotifyForChange

  /** The generator run to its end over `dependents` with `ForChange` as
      given: the error it throws, the names of the cells it yields, and
      `ForChange` when it stops. A name already in `ForChange` is skipped;
      otherwise it is added, looked up and yielded. The nested call to the
      generator is never iterated, so only direct dependents are yielded.
      `ForChange` is cleared at the end. */
  function ForChange(v: View, dependents: seq<string>, forChange: seq<string>): (r: (Option<ScopeError>, seq<string>, seq<string>))
    ensures r.0.None? ==> r.2 == []
    ensures r.0.Some? ==> r.0.value.NameNotFound? && r.0.value.name !in v && r.0.value.name in dependents
    ensures forall x | x in r.1 :: x in v && x in dependents && x !in forChange
  {
    var (e, ys, fc) := Pending(v, dependents, forChange);
    if e.Some? then (e, ys, fc) else (None, ys, [])
  }

  /** The loop before its clearing step. */
  function Pending(v: View, dependents: seq<string>, forChange: seq<string>): (r: (Option<ScopeError>, seq<string>, seq<string>))
    ensures r.0.Some? ==> r.0.value.NameNotFound? && r.0.value.name !in v && r.0.value.name in dependents
    ensures forall x | x in r.1 :: x in v && x in dependents && x !in forChange
    ensures forChange <= r.2
  {
    if dependents == [] then (None, [], forChange)
    else
      var (e, ys, fc) := Pending(v, dependents[..|dependents| - 1], forChange);
      var d := dependents[|dependents| - 1];
      if e.Some? then (e, ys, fc)
      else if d in fc then (None, ys, fc)
      else if d !in v then (Some(NameNotFound(d)), ys, fc + [d])
      else (None, ys + [d], fc + [d])
  }

  /** The dependents not already in `forChange`, in order. */
  function Unseen(dependents: seq<string>, forChange: seq<string>): seq<string>
  {
    if dependents == [] then []
    else
      var d := dependents[|dependents| - 1];
      Unseen(dependents[..|dependents| - 1], forChange) + (if d in forChange then [] else [d])
  }

  /** Over a set of declared dependents the loop yields each one that was
      not already pending exactly once, in order, and leaves `ForChange`
      empty. */
  lemma YieldsEachDependentOnce(v: View, dependents: seq<string>, forChange: seq<string>)
    requires NoDuplicates(dependents) && forall i | 0 <= i < |dependents| :: dependents[i] in v
    ensures ForChange(v, dependents, forChange) == (None, Unseen(dependents, forChange), [])
    ensures NoDuplicates(Unseen(dependents, forChange))
  {
    PendingUnseen(v, dependents, forChange);
  }

  lemma {:induction false} PendingUnseen(v: View, dependents: seq<string>, forChange: seq<string>)
    requires NoDuplicates(dependents) && forall i | 0 <= i < |dependents| :: dependents[i] in v
    ensures Pending(v, dependents, forChange) == (None, Unseen(dependents, forChange), forChange + Unseen(dependents, forChange))
    ensures NoDuplicates(Unseen(dependents, forChange))
    ensures forall x | x in Unseen(dependents, forChange) :: x in dependents && x !in forChange
  {
    if dependents != [] {
      var front := dependents[..|dependents| - 1];
      var d := dependents[|dependents| - 1];
      assert forall i | 0 <= i < |front| :: front[i] == dependents[i];
      assert d !in front;
      PendingUnseen(v, front, forChange);
      assert Pending(v, front, forChange) == (None, Unseen(front, forChange), forChange + Unseen(front, forChange));
      var u := Unseen(front, forChange);
      assert d !in u;
      assert d in v;
      assert d in forChange + u <==> d in forChange;
      if d !in forChange {
        assert Pending(v, dependents, forChange) == (None, u + [d], (forChange + u) + [d]);
        assert (forChange + u) + [d] == forChange + (u + [d]);
        forall i, j | 0 <= i < j < |u + [d]|
          ensures (u + [d])[i] != (u + [d])[j]
        {
          if j == |u| {
            assert (u + [d])[i] == u[i];
          }
        }
      } else {
        assert Pending(v, dependents, forChange) == (None, u, forChange + u);
        assert u + [] == u;
      }
    } else {
      assert forChange + [] == forChange;
    }
  }

  // ---------------------------------------------------------------------
  // The scope and its cells

  class Cell {
    const name: string
    var value: real
    var expression: BoundExpression
    var dependencies: seq<string>
    var dependents: seq<string>

    function State(): CellState
      reads this
    {
      CellState(value, expression, dependencies, dependents)
    }

    constructor (name: string, value: real, expression: BoundExpression, dependencies: seq<string>, dependents: seq<string>)
      ensures this.name == name && State() == CellState(value, expression, dependencies, dependents)
    {
      this.name := name;
      this.value, this.expression := value, expression;
      this.dependencies, this.dependents := dependencies, dependents;
    }

    /** `Notify`: the name joins `Dependents`. */
    method Notify(n: string)
      modifies this`dependents
      ensures dependents == SetAdd(old(dependents), n)
    {
      dependents := SetAdd(dependents, n);
    }

    /** `DoNotNotify`: the name leaves `Dependents`. */
    method DoNotNotify(n: string)
      modifies this`dependents
      ensures dependents == SetDelete(old(dependents), n)
    {
      dependents := SetDelete(dependents, n);
    }
  }

  datatype Lookup = Located(cell: Cell) | Missing(error: ScopeError)

  class BoundScope {
    /** `Data`: the cell of each declared name. */
    var data: map<string, Cell>
    /** `ForChange`: the dependents the running generator has visited. */
    var forChange: seq<string>
    /** `Names`. */
    var names: seq<string>
    var diagnostics: seq<ScopeError>
    const stackDepth: nat

    /** Each cell is filed under its own name, `Names` has no repeats,
        and every cell's `Dependents` is a set. */
    ghost predicate Valid()
      reads this`data, this`names, data.Values
    {
      && (forall k | k in data :: data[k].name == k)
      && NoDuplicates(names)
      && SetsOfDependents(View())
    }

    /** The cells, as values. */
    ghost function View(): View
      reads this`data, data.Values
    {
      map k | k in data :: data[k].State()
    }

    constructor (depth: nat)
      ensures Valid() && View() == map[] && forChange == [] && names == [] && diagnostics == []
      ensures stackDepth == depth
    {
      data, forChange, names, diagnostics := map[], [], [], [];
      stackDepth := depth;
    }

    /** `PushCell`: the name joins `Names`. */
    method PushCell(name: string)
      requires Valid()
      modifies this`names
      ensures Valid() && names == SetAdd(old(names), name)
    {
      names := SetAdd(names, name);
    }

    /** `TryLookUpCell`: the cell of a declared name, or `NameNotFound`
        reported and thrown. */
    method TryLookUpCell(name: string) returns (r: Lookup)
      modifies this`diagnostics
      ensures name in data ==> r == Located(data[name]) && diagnostics == old(diagnostics)
      ensures name !in data ==> r == Missing(NameNotFound(name)) && diagnostics == old(diagnostics) + [NameNotFound(name)]
    {
      if name !in data {
        diagnostics := diagnostics + [NameNotFound(name)];
        return Missing(NameNotFound(name));
      }
      r := Located(data[name]);
    }

    /** A thrown error as the scope reports it: every error but the
        exhausted call stack goes through the diagnostic bag. */
    static function Reported(e: ScopeError): seq<ScopeError>
    {
      if e == CallStackExceeded then [] else [e]
    }

    /** `DetectCircularDependencies`, with its error reported. */
    method DetectCircularDependencies(name: string, deps: seq<string>, fuel: nat) returns (e: Option<ScopeError>)
      requires Valid()
      modifies this`diagnostics
      ensures e == Detect(View(), name, deps, fuel)
      ensures diagnostics == old(diagnostics) + (if e.Some? then Reported(e.value) else [])
      decreases fuel, 1
    {
      if name in deps {
        diagnostics := diagnostics + [UsedBeforeItsDeclaration(name)];
        return Some(UsedBeforeItsDeclaration(name));
      }
      ghost var v := View();
      for i := 0 to |deps|
        invariant View() == v
        invariant DetectEach(v, name, deps, fuel) == DetectEach(v, name, deps[i..], fuel)
        invariant diagnostics == old(diagnostics)
      {
        DetectEachStep(v, name, deps, fuel, i);
        var found := TryLookUpCell(deps[i]);
        if found.Missing? {
          return Some(found.error);
        }
        var inner := found.cell.dependencies;
        if name in inner {
          diagnostics := diagnostics + [CircularDependency(deps[i])];
          return Some(CircularDependency(deps[i]));
        }
        if fuel == 0 {
          return Some(CallStackExceeded);
        }
        e := DetectCircularDependencies(name, inner, fuel - 1);
        if e.Some? {
          return;
        }
      }
      e := None;
    }

    /** One `DoNotNotify` step on the cell of `d`. */
    method DoNotNotifyCell(c: Cell, d: string, name: string)
      requires Valid() && d in data && c == data[d]
      modifies c`dependents
      ensures Valid() && data == old(data)
      ensures View() == old(View())[d := old(View())[d].(dependents := SetDelete(old(View())[d].dependents, name))]
    {
      c.DoNotNotify(name);
      assert forall k | k in data && k != d :: data[k] != c;
    }

    /** One `Notify` step on the cell of `d`. */
    method NotifyCell(c: Cell, d: string, name: string)
      requires Valid() && d in data && c == data[d]
      modifies c`dependents
      ensures Valid() && data == old(data)
      ensures View() == old(View())[d := old(View())[d].(dependents := SetAdd(old(View())[d].dependents, name))]
    {
      c.Notify(name);
      assert forall k | k in data && k != d :: data[k] != c;
    }

    /** `TryLookUpCell(d).DoNotNotify(name)`. */
    method LookUpAndUnnotify(d: string, name: string) returns (e: Option<ScopeError>)
      requires Valid()
      modifies this`diagnostics, data.Values
      ensures Valid() && data == old(data)
      ensures d in data ==>
        e == None && diagnostics == old(diagnostics)
        && View() == old(View())[d := old(View())[d].(dependents := SetDelete(old(View())[d].dependents, name))]
      ensures d !in data ==>
        e == Some(NameNotFound(d)) && diagnostics == old(diagnostics) + [NameNotFound(d)] && View() == old(View())
    {
      var found := TryLookUpCell(d);
      if found.Missing? {
        return Some(found.error);
      }
      DoNotNotifyCell(found.cell, d, name);
      e := None;
    }

    /** `TryLookUpCell(d).Notify(name)`. */
    method LookUpAndNotify(d: string, name: string) returns (e: Option<ScopeError>)
      requires Valid()
      modifies this`diagnostics, data.Values
      ensures Valid() && data == old(data)
      ensures d in data ==>
        e == None && diagnostics == old(diagnostics)
        && View() == old(View())[d := old(View())[d].(dependents := SetAdd(old(View())[d].dependents, name))]
      ensures d !in data ==>
        e == Some(NameNotFound(d)) && diagnostics == old(diagnostics) + [NameNotFound(d)] && View() == old(View())
    {
      var found := TryLookUpCell(d);
      if found.Missing? {
        return Some(found.error);
      }
      NotifyCell(found.cell, d, name);
      e := None;
    }

    /** The `DoNotNotify` loop over `deps`, skipping those in `keep`. */
    method UnnotifyEach(name: string, deps: seq<string>, keep: seq<string>) returns (e: Option<ScopeError>)
      requires Valid()
      modifies this`diagnostics, data.Values
      ensures Valid() && data == old(data)
      ensures var r := Unnotify(old(View()), name, deps, keep);
        && View() == r.view
        && (r.Returned? ==> e == None && diagnostics == old(diagnostics))
        && (r.Threw? ==> e == Some(r.error) && diagnostics == old(diagnostics) + [r.error])
    {
      ghost var v0 := View();
      for i := 0 to |deps|
        invariant Valid() && data == old(data)
        invariant Unnotify(v0, name, deps[..i], keep) == Returned((), View())
        invariant diagnostics == old(diagnostics)
      {
        UnnotifyStep(v0, name, deps, keep, i);
        if deps[i] !in keep {
          e := LookUpAndUnnotify(deps[i], name);
          if e.Some? {
            UnnotifyStops(v0, name, deps, keep, i + 1);
            return;
          }
        }
      }
      assert deps[..|deps|] == deps;
      e := None;
    }

    /** The `Notify` loop over `deps`. */
    method NotifyEach(name: string, deps: seq<string>) returns (e: Option<ScopeError>)
      requires Valid()
      modifies this`diagnostics, data.Values
      ensures Valid() && data == old(data)
      ensures var r := NotifyAll(old(View()), name, deps);
        && View() == r.view
        && (r.Returned? ==> e == None && diagnostics == old(diagnostics))
        && (r.Threw? ==> e == Some(r.error) && diagnostics == old(diagnostics) + [r.error])
    {
      ghost var v0 := View();
      for i := 0 to |deps|
        invariant Valid() && data == old(data)
        invariant NotifyAll(v0, name, deps[..i]) == Returned((), View())
        invariant diagnostics == old(diagnostics)
      {
        NotifyAllStep(v0, name, deps, i);
        e := LookUpAndNotify(deps[i], name);
        if e.Some? {
          NotifyAllStops(v0, name, deps, i + 1);
          return;
        }
      }
      assert deps[..|deps|] == deps;
      e := None;
    }

    /** The cell of `d` takes new dependencies. */
    method SetDependencies(c: Cell, d: string, deps: seq<string>)
      requires Valid() && d in data && c == data[d]
      modifies c`dependencies
      ensures Valid() && data == old(data)
      ensures View() == old(View())[d := old(View())[d].(dependencies := deps)]
    {
      c.dependencies := deps;
      assert forall k | k in data && k != d :: data[k] != c;
    }

    /** The cell of `d` takes a new expression and value. */
    method SetFormula(c: Cell, d: string, expression: BoundExpression, value: real)
      requires Valid() && d in data && c == data[d]
      modifies c`expression, c`value
      ensures Valid() && data == old(data)
      ensures View() == old(View())[d := old(View())[d].(expression := expression, value := value)]
    {
      c.expression := expression;
      c.value := value;
      assert forall k | k in data && k != d :: data[k] != c;
    }

    /** A new cell for `name`: value 0, the scope's zero expression, the
        given dependencies and no dependents. */
    method AddCell(name: string, deps: seq<string>)
      requires Valid() && name !in data
      modifies this`data
      ensures Valid()
      ensures View() == old(View())[name := CellState(0.0, BoundNumber(0.0), deps, [])]
    {
      var cell := new Cell(name, 0.0, BoundNumber(0.0), deps, []);
      data := data[name := cell];
      assert View() == old(View())[name := CellState(0.0, BoundNumber(0.0), deps, [])];
    }

    /** `TryDeclareCell`: whether the name was new. */
    method TryDeclareCell(node: Declaration) returns (e: Option<ScopeError>, isNew: bool)
      requires Valid()
      modifies this`data, this`diagnostics, data.Values
      ensures Valid()
      ensures var r := TryDeclare(old(View()), stackDepth, node);
        && View() == r.view
        && (r.Returned? ==> e == None && isNew == r.value && diagnostics == old(diagnostics))
        && (r.Threw? ==> e == Some(r.error) && diagnostics == old(diagnostics) + Reported(r.error))
    {
      isNew := false;
      e := DetectCircularDependencies(node.name, node.dependencies, stackDepth);
      if e.Some? {
        return;
      }
      if node.name !in data {
        AddCell(node.name, node.dependencies);
        return None, true;
      }
      ghost var v0 := View();
      var existing := data[node.name];
      e := UnnotifyEach(node.name, existing.dependencies, node.dependencies);
      ghost var unlinked := Unnotify(v0, node.name, v0[node.name].dependencies, node.dependencies);
      assert View() == unlinked.view;
      if e.Some? {
        assert TryDeclare(v0, stackDepth, node) == Threw(unlinked.error, unlinked.view);
        return;
      }
      SetDependencies(existing, node.name, node.dependencies);
    }

    /** The link step of `Assign`. */
    method RelinkCell(node: Declaration, value: real) returns (e: Option<ScopeError>)
      requires Valid()
      modifies this`diagnostics, data.Values
      ensures Valid() && data == old(data)
      ensures var r := Relink(old(View()), node, value);
        && View() == r.view
        && (r.Returned? ==> e == None && diagnostics == old(diagnostics))
        && (r.Threw? ==> e == Some(r.error) && diagnostics == old(diagnostics) + [r.error])
    {
      ghost var v0 := View();
      var found := TryLookUpCell(node.name);
      if found.Missing? {
        return Some(found.error);
      }
      var cell := found.cell;
      e := UnnotifyEach(cell.name, cell.dependencies, node.dependencies);
      ghost var unlinked := Unnotify(v0, node.name, v0[node.name].dependencies, node.dependencies);
      assert View() == unlinked.view;
      if e.Some? {
        return;
      }
      SetDependencies(cell, node.name, node.dependencies);
      ghost var w := View();
      e := NotifyEach(cell.name, node.dependencies);
      ghost var linked := NotifyAll(w, node.name, node.dependencies);
      assert View() == linked.view;
      if e.Some? {
        return;
      }
      SetFormula(cell, node.name, node.expression, value);
    }

    /** `DetectAndNotifyForChange` run to its end: the names of the cells
        it yields. */
    method DetectAndNotifyForChange(dependents: seq<string>) returns (e: Option<ScopeError>, yielded: seq<string>)
      modifies this`forChange, this`diagnostics
      ensures (e, yielded, forChange) == ForChange(View(), dependents, old(forChange))
      ensures diagnostics == old(diagnostics) + (if e.Some? then [e.value] else [])
    {
      yielded := [];
      ghost var v := View();
      for i := 0 to |dependents|
        invariant View() == v
        invariant Pending(v, dependents[..i], old(forChange)) == (None, yielded, forChange)
        invariant diagnostics == old(diagnostics)
      {
        PendingStep(v, dependents, old(forChange), i);
        var d := dependents[i];
        if d in forChange {
          continue;
        }
        forChange := forChange + [d];
        var found := TryLookUpCell(d);
        if found.Missing? {
          PendingStops(v, dependents, old(forChange), i + 1);
          return Some(found.error), yielded;
        }
        yielded := yielded + [d];
      }
      assert dependents[..|dependents|] == dependents;
      forChange := [];
      e := None;
    }

    /** `Assign`: the cell is relinked, takes the node's expression and the
        value, and its direct dependents are yielded, each once. */
    method Assign(node: Declaration, value: real) returns (e: Option<ScopeError>, yielded: seq<string>)
      requires Valid()
      modifies this`forChange, this`diagnostics, data.Values
      ensures Valid() && data == old(data)
      ensures var r := Relink(old(View()), node, value);
        && View() == r.view
        && (r.Threw? ==> e == Some(r.error) && yielded == [] && diagnostics == old(diagnostics) + [r.error])
        && (r.Returned? ==>
              && (e, yielded, forChange) == ForChange(r.view, r.view[node.name].dependents, old(forChange))
              && diagnostics == old(diagnostics) + (if e.Some? then [e.value] else []))
    {
      ghost var r := Relink(View(), node, value);
      e := RelinkCell(node, value);
      if e.Some? {
        return e, [];
      }
      assert View() == r.view && data[node.name].dependents == r.view[node.name].dependents;
      e, yielded := DetectAndNotifyForChange(data[node.name].dependents);
      assert View() == r.view;
    }

    /** `SetValueForCell`: the cell takes the value; the line it logs is
        not part of this model. */
    method SetValueForCell(name: string, value: real) returns (e: Option<ScopeError>)
      requires Valid()
      modifies this`diagnostics, data.Values
      ensures Valid() && data == old(data)
      ensures name in old(data) ==> e == None && View() == old(View())[name := old(View())[name].(value := value)]
      ensures name !in old(data) ==> e == Some(NameNotFound(name)) && View() == old(View())
      ensures diagnostics == old(diagnostics) + (if name in old(data) then [] else [NameNotFound(name)])
    {
      var found := TryLookUpCell(name);
      if found.Missing? {
        return Some(found.error);
      }
      found.cell.value := value;
      assert forall k | k in data && k != name :: data[k] != found.cell;
      e := None;
    }

    /** `FactoryReset`: no cell is left. */
    method FactoryReset()
      requires Valid()
      modifies this`data
      ensures Valid() && View() == map[]
    {
      data := map[];
    }
  }

  /** One more step of the unlink loop. */
  lemma UnnotifyStep(v: View, name: string, deps: seq<string>, keep: seq<string>, i: nat)
    requires i < |deps|
    ensures var front := Unnotify(v, name, deps[..i], keep);
      var d := deps[i];
      Unnotify(v, name, deps[..i + 1], keep) ==
        if front.Threw? || d in keep then front
        else if d !in front.view then Threw(NameNotFound(d), front.view)
        else Returned((), front.view[d := front.view[d].(dependents := SetDelete(front.view[d].dependents, name))])
  {
    assert deps[..i + 1][..i] == deps[..i];
  }

  /** One more step of the link loop. */
  lemma NotifyAllStep(v: View, name: string, deps: seq<string>, i: nat)
    requires i < |deps|
    ensures var front := NotifyAll(v, name, deps[..i]);
      var d := deps[i];
      NotifyAll(v, name, deps[..i + 1]) ==
        if front.Threw? then front
        else if d !in front.view then Threw(NameNotFound(d), front.view)
        else Returned((), front.view[d := front.view[d].(dependents := SetAdd(front.view[d].dependents, name))])
  {
    assert deps[..i + 1][..i] == deps[..i];
  }

  /** A failure at step `i` of the unlink loop is the failure of the loop. */
  lemma {:induction false} UnnotifyStops(v: View, name: string, deps: seq<string>, keep: seq<string>, i: nat)
    requires i <= |deps| && Unnotify(v, name, deps[..i], keep).Threw?
    ensures Unnotify(v, name, deps, keep) == Unnotify(v, name, deps[..i], keep)
    decreases |deps|
  {
    if i < |deps| {
      assert deps[..|deps| - 1][..i] == deps[..i];
      UnnotifyStops(v, name, deps[..|deps| - 1], keep, i);
    } else {
      assert deps[..i] == deps;
    }
  }

  lemma {:induction false} NotifyAllStops(v: View, name: string, deps: seq<string>, i: nat)
    requires i <= |deps| && NotifyAll(v, name, deps[..i]).Threw?
    ensures NotifyAll(v, name, deps) == NotifyAll(v, name, deps[..i])
    decreases |deps|
  {
    if i < |deps| {
      assert deps[..|deps| - 1][..i] == deps[..i];
      NotifyAllStops(v, name, deps[..|deps| - 1], i);
    } else {
      assert deps[..i] == deps;
    }
  }

  lemma {:induction false} PendingStops(v: View, dependents: seq<string>, forChange: seq<string>, i: nat)
    requires i <= |dependents| && Pending(v, dependents[..i], forChange).0.Some?
    ensures Pending(v, dependents, forChange) == Pending(v, dependents[..i], forChange)
    decreases |dependents|
  {
    if i < |dependents| {
      assert dependents[..|dependents| - 1][..i] == dependents[..i];
      PendingStops(v, dependents[..|dependents| - 1], forChange, i);
    } else {
      assert dependents[..i] == dependents;
    }
  }

  /** One more step of the generator's loop. */
  lemma PendingStep(v: View, dependents: seq<string>, forChange: seq<string>, i: nat)
    requires i < |dependents|
    ensures var (e, ys, fc) := Pending(v, dependents[..i], forChange);
      var d := dependents[i];
      Pending(v, dependents[..i + 1], forChange) ==
        if e.Some? then (e, ys, fc)
        else if d in fc then (None, ys, fc)
        else if d !in v then (Some(NameNotFound(d)), ys, fc + [d])
        else (None, ys + [d], fc + [d])
  {
    assert dependents[..i + 1][..i] == dependents[..i];
  }

  /** One more step of the `DetectCircularDependencies` loop. */
  lemma DetectEachStep(v: View, name: string, deps: seq<string>, fuel: nat, i: nat)
    requires i < |deps|
    ensures DetectEach(v, name, deps[i..], fuel) ==
      var d := deps[i];
      if d !in v then Some(NameNotFound(d))
      else if name in v[d].dependencies then Some(CircularDependency(d))
      else if fuel == 0 then Some(CallStackExceeded)
      else
        var inner := Detect(v, name, v[d].dependencies, fuel - 1);
        if inner.Some? then inner else DetectEach(v, name, deps[i + 1..], fuel)
  {
    assert deps[i..][1..] == deps[i + 1..];
  }
}
