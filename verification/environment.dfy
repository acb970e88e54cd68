/** The run-time environment of src/Environment.ts.

    It keeps, under each reference name, the declaration node last stored
    for it and its value. Storing a declaration registers its name in the
    `ReferencedBy` list of every declaration it refers to, once each. A
    referenced name with no stored value is reported as undefined, and
    the environment then reads `ReferencedBy` of a missing node, which
    throws; the model returns that as a `Failure`. Both maps are always
    set together, so a name has a node exactly when it has a value.

    The source reads the name as `Node.Reference.Reference` and keeps
    `ReferencedBy` on the stored node, neither of which the syntax node it
    imports declares; a declaration here carries its name as a string and
    its own `referencedBy` list. */
module Environment {
  import opened Common

  /** A reference declaration as the environment sees it. */
  datatype Declaration = Declaration(reference: string, referencing: seq<string>, referencedBy: seq<string>)

  datatype Diagnostic = VarUndefined(reference: string)

  /** `Failure(r)`: reading `ReferencedBy` of the missing node for `r`. */
  datatype Result = Ok(value: real) | Failure(undefinedReference: string)

  /** `x` pushed onto `list` unless the list already includes it. */
  function Include(list: seq<string>, x: string): (r: seq<string>)
    ensures x in r
    ensures forall y :: y in r <==> y in list || y == x
    ensures list <= r && |r| <= |list| + 1
    ensures NoDuplicates(list) ==> NoDuplicates(r)
  {
    if x in list then list else list + [x]
  }

  /** The nodes after `name` has been registered with each of `refs`, all
      of which have a node: each referenced node gains `name` at the end
      of its `ReferencedBy` unless it is there already, and nothing else
      changes. */
  function Register(nodes: map<string, Declaration>, name: string, refs: seq<string>): (r: map<string, Declaration>)
    requires forall i | 0 <= i < |refs| :: refs[i] in nodes
    ensures r.Keys == nodes.Keys
  {
    if refs == [] then nodes
    else
      var m := Register(nodes, name, refs[..|refs| - 1]);
      var last := refs[|refs| - 1];
      m[last := m[last].(referencedBy := Include(m[last].referencedBy, name))]
  }

  /** Registration in closed form: a referenced node gains `name` at the
      end of its `ReferencedBy` unless it is there already, and every
      other node, and every other field, is unchanged. */
  lemma {:induction false} RegisterClosedForm(nodes: map<string, Declaration>, name: string, refs: seq<string>, k: string)
    requires forall i | 0 <= i < |refs| :: refs[i] in nodes
    requires k in nodes
    ensures Register(nodes, name, refs)[k] == nodes[k].(referencedBy :=
      if k in refs then Include(nodes[k].referencedBy, name) else nodes[k].referencedBy)
  {
    if refs != [] {
      var front := refs[..|refs| - 1];
      RegisterClosedForm(nodes, name, front, k);
      assert k in refs <==> k in front || k == refs[|refs| - 1];
    }
  }

  /** After registration every referenced node lists `name` exactly once
      when it listed each name at most once before, and keeps its earlier
      entries in their order. */
  lemma RegisterListsOnce(nodes: map<string, Declaration>, name: string, refs: seq<string>, k: string)
    requires forall i | 0 <= i < |refs| :: refs[i] in nodes
    requires k in nodes
    ensures nodes[k].referencedBy <= Register(nodes, name, refs)[k].referencedBy
    ensures k in refs ==> name in Register(nodes, name, refs)[k].referencedBy
    ensures NoDuplicates(nodes[k].referencedBy) ==> NoDuplicates(Register(nodes, name, refs)[k].referencedBy)
  {
    RegisterClosedForm(nodes, name, refs, k);
  }

  /** Registering again adds nothing: registration is idempotent. */
  lemma {:induction false} RegisterTwice(nodes: map<string, Declaration>, name: string, refs: seq<string>)
    requires forall i | 0 <= i < |refs| :: refs[i] in nodes
    ensures Register(Register(nodes, name, refs), name, refs) == Register(nodes, name, refs)
  {
    var once := Register(nodes, name, refs);
    var twice := Register(once, name, refs);
    forall k | k in once
      ensures twice[k] == once[k]
    {
      RegisterClosedForm(nodes, name, refs, k);
      RegisterClosedForm(once, name, refs, k);
    }
  }

  /** One more registration step. */
  lemma RegisterStep(nodes: map<string, Declaration>, name: string, refs: seq<string>, i: nat)
    requires i < FirstUndefined(nodes.Keys, refs)
    ensures var m := Register(nodes, name, refs[..i]);
      Register(nodes, name, refs[..i + 1]) == m[refs[i] := m[refs[i]].(referencedBy := Include(m[refs[i]].referencedBy, name))]
  {
    assert refs[..i + 1][..i] == refs[..i];
  }

  /** The index of the first referenced name with no node, or `|refs|`. */
  function FirstUndefined(keys: set<string>, refs: seq<string>): (i: nat)
    ensures i <= |refs|
    ensures forall j | 0 <= j < i :: refs[j] in keys
    ensures i < |refs| ==> refs[i] !in keys
  {
    if refs == [] then 0
    else if refs[0] !in keys then 0
    else 1 + FirstUndefined(keys, refs[1..])
  }

  class Environment {
    /** `References`: the node stored for each name. */
    var nodes: map<string, Declaration>
    /** `Values`: the value stored for each name. */
    var values: map<string, real>
    /** The diagnostics this environment reports. */
    var diagnostics: seq<Diagnostic>

    ghost predicate Valid()
      reads this
    {
      && nodes.Keys == values.Keys
      && forall k | k in nodes :: nodes[k].reference == k
    }

    constructor ()
      ensures Valid() && nodes == map[] && values == map[] && diagnostics == []
    {
      nodes, values, diagnostics := map[], map[], [];
    }

    /** `GetValueFromCell`: the stored value, or `VarUndefined` reported and
        no value. */
    method GetValueFromCell(reference: string) returns (r: Option<real>)
      modifies this`diagnostics
      ensures reference in values ==> r == Some(values[reference]) && diagnostics == old(diagnostics)
      ensures reference !in values ==> r == None && diagnostics == old(diagnostics) + [VarUndefined(reference)]
    {
      if reference in values {
        return Some(values[reference]);
      }
      diagnostics := diagnostics + [VarUndefined(reference)];
      r := None;
    }

    /** `RegisterSelf`: each referenced name in order is looked up, then
        `name` is added to its node's `ReferencedBy` unless already there.
        The first name with no node is reported undefined and ends the
        loop with a `Failure`; the names before it stay registered. */
    method RegisterSelf(name: string, refs: seq<string>) returns (undefined: Option<string>)
      requires Valid()
      modifies this`nodes, this`diagnostics
      ensures Valid()
      ensures var i := FirstUndefined(old(nodes).Keys, refs);
        && nodes == Register(old(nodes), name, refs[..i])
        && (i == |refs| ==> undefined == None && diagnostics == old(diagnostics))
        && (i < |refs| ==> undefined == Some(refs[i]) && diagnostics == old(diagnostics) + [VarUndefined(refs[i])])
    {
      ghost var first := FirstUndefined(nodes.Keys, refs);
      for i := 0 to |refs|
        invariant Valid() && nodes.Keys == old(nodes).Keys
        invariant i <= first
        invariant nodes == Register(old(nodes), name, refs[..i])
        invariant diagnostics == old(diagnostics)
      {
        var reference := refs[i];
        var value := GetValueFromCell(reference);
        if reference !in nodes {
          assert i == first;
          return Some(reference);
        }
        RegisterStep(old(nodes), name, refs, i);
        AddReferencedBy(name, reference);
      }
      assert first == |refs|;
      undefined := None;
    }

    /** The body of the loop of `RegisterSelf` once the node is found:
        `name` is pushed onto its `ReferencedBy` unless already there. */
    method AddReferencedBy(name: string, reference: string)
      requires Valid() && reference in nodes
      modifies this`nodes
      ensures Valid()
      ensures nodes == old(nodes)[reference := old(nodes)[reference].(referencedBy := Include(old(nodes)[reference].referencedBy, name))]
    {
      var node := nodes[reference];
      if name in node.referencedBy {
        assert nodes[reference := node] == nodes;
        return;
      }
      nodes := nodes[reference := node.(referencedBy := node.referencedBy + [name])];
    }

    /** `SetValueForReference`: the node and the value are stored under the
        node's name, the name is registered with the nodes it refers to,
        and the value is returned, unless registration throws. */
    method SetValueForReference(node: Declaration, value: real) returns (r: Result)
      requires Valid()
      modifies this
      ensures Valid()
      ensures values == old(values)[node.reference := value]
      ensures var stored := old(nodes)[node.reference := node];
        var i := FirstUndefined(stored.Keys, node.referencing);
        && nodes == Register(stored, node.reference, node.referencing[..i])
        && (i == |node.referencing| ==> r == Ok(value) && diagnostics == old(diagnostics))
        && (i < |node.referencing| ==>
              r == Failure(node.referencing[i]) && diagnostics == old(diagnostics) + [VarUndefined(node.referencing[i])])
    {
      nodes := nodes[node.reference := node];
      values := values[node.reference := value];
      var undefined := RegisterSelf(node.reference, node.referencing);
      r := if undefined.Some? then Failure(undefined.value) else Ok(value);
    }
  }
}
