/** The dependency graph of src/Cell.ts.

    A cell watches its subjects and is notified by them: `Subjects` and
    `Observers` are maps from cell name to cell, which keep their keys in
    insertion order. Here such a map is the sequence of its cells in that
    order, each keyed by its own name; `Keyed` says that no two of them
    share a name, which every map satisfies. `HasSubject` searches depth
    first, along subjects, for a cell with a direct edge to a given name,
    using a shared set of the cells on the current path to notice a
    cycle. */
module CellGraph {
  import opened Common

  /** The names of the entries, in order. */
  function Keys(entries: seq<Cell>): (r: seq<string>)
    ensures |r| == |entries| && forall i | 0 <= i < |entries| :: r[i] == entries[i].name
  {
    seq(|entries|, i requires 0 <= i < |entries| => entries[i].name)
  }

  /** No two entries share a name. */
  predicate Keyed(entries: seq<Cell>)
  {
    forall i, j | 0 <= i < j < |entries| :: entries[i].name != entries[j].name
  }

  /** The position of the entry named `k`, or `|entries|` when there is none. */
  function IndexOf(entries: seq<Cell>, k: string): (i: nat)
    ensures i <= |entries|
    ensures i < |entries| ==> entries[i].name == k
    ensures forall j | 0 <= j < i :: entries[j].name != k
  {
    if entries == [] then 0
    else if entries[0].name == k then 0
    else 1 + IndexOf(entries[1..], k)
  }

  /** `Map.set(c.Name, c)`: an existing entry with that name is replaced in
      its place, otherwise `c` is added last. */
  function MapSet(entries: seq<Cell>, c: Cell): (r: seq<Cell>)
    ensures c in r
  {
    var i := IndexOf(entries, c.name);
    if i < |entries| then assert entries[i := c][i] == c; entries[i := c] else entries + [c]
  }

  /** `Map.delete(k)`: the entry named `k`, if any, is removed and the others
      keep their order. */
  function MapDelete(entries: seq<Cell>, k: string): seq<Cell>
  {
    var i := IndexOf(entries, k);
    if i < |entries| then entries[..i] + entries[i + 1..] else entries
  }

  /** After `set`, the map holds `c` under its name and every entry with
      another name as before; a key already present keeps its position,
      a new key comes last. */
  lemma MapSetStores(entries: seq<Cell>, c: Cell)
    requires Keyed(entries)
    ensures var r := MapSet(entries, c);
      && Keyed(r)
      && (forall d :: d in r <==> d == c || (d in entries && d.name != c.name))
      && (c.name in Keys(entries) ==> Keys(r) == Keys(entries))
      && (c.name !in Keys(entries) ==> r == entries + [c])
  {
    var r := MapSet(entries, c);
    var i := IndexOf(entries, c.name);
    if i < |entries| {
      assert Keys(r) == Keys(entries);
      forall d
        ensures d in r <==> d == c || (d in entries && d.name != c.name)
      {
        if d in entries && d.name != c.name {
          var j :| 0 <= j < |entries| && entries[j] == d;
          assert r[j] == d;
        }
        if d in r && d != c {
          var j :| 0 <= j < |r| && r[j] == d;
          assert j != i && entries[j] == d;
        }
      }
    } else {
      assert c.name !in Keys(entries) by {
        forall j | 0 <= j < |entries|
          ensures Keys(entries)[j] != c.name
        {
        }
      }
    }
  }

  /** After `delete`, the map holds exactly the entries with another name,
      in their old order. */
  lemma MapDeleteRemoves(entries: seq<Cell>, k: string)
    requires Keyed(entries)
    ensures var r := MapDelete(entries, k);
      && Keyed(r)
      && (forall d :: d in r <==> d in entries && d.name != k)
      && k !in Keys(r)
      && |r| == if k in Keys(entries) then |entries| - 1 else |entries|
  {
    var r := MapDelete(entries, k);
    var i := IndexOf(entries, k);
    if i < |entries| {
      assert forall j | 0 <= j < |r| :: r[j] == if j < i then entries[j] else entries[j + 1];
      forall d
        ensures d in r <==> d in entries && d.name != k
      {
        if d in entries && d.name != k {
          var j :| 0 <= j < |entries| && entries[j] == d;
          assert j != i;
          if j < i { assert r[j] == d; } else { assert r[j - 1] == d; }
        }
      }
      assert k in Keys(entries) by { assert Keys(entries)[i] == k; }
    } else {
      assert forall j | 0 <= j < |entries| :: Keys(entries)[j] != k;
    }
  }

  /** What the search reports, in the bag of src/Diagnostics/DiagnosticBag.ts. */
  datatype Diagnostic = InvalidCellState(cell: string) | CircularDependency(subject: string, cell: string)

  /** The diagnostic bag the search reports to; the file that defines it,
      src/Diagnostics/DiagnosticBag.ts, is not part of this model beyond
      the two reports appended here. */
  class Diagnostics {
    var reports: seq<Diagnostic>

    constructor ()
      ensures reports == []
    {
      reports := [];
    }

    method Report(d: Diagnostic)
      modifies this
      ensures reports == old(reports) + [d]
    {
      reports := reports + [d];
    }
  }

  /** The `CheckingCells` set shared by a search and every call it makes. */
  class CheckingCells {
    var cells: set<Cell>

    constructor ()
      ensures cells == {}
    {
      cells := {};
    }
  }

  /** Putting a cell of the universe on the path leaves one fewer cell
      off it. */
  lemma PathGrows(universe: set<Cell>, checking: set<Cell>, c: Cell)
    requires c in universe && c !in checking
    ensures |universe - (checking + {c})| == |universe - checking| - 1
  {
    assert universe - checking == (universe - (checking + {c})) + {c};
  }

  /** A set of cells closed under taking subjects. */
  ghost predicate Closed(universe: set<Cell>)
    reads universe
  {
    forall c | c in universe :: forall i | 0 <= i < |c.subjects| :: c.subjects[i] in universe
  }

  /** The outcome of `HasSubject` on `c` with `checking` on entry: the cell
      returned, or `None` for null, and the diagnostics it reports. */
  function Search(c: Cell, subject: string, checking: set<Cell>, ghost universe: set<Cell>): (r: (Option<Cell>, seq<Diagnostic>))
    requires c in universe && Closed(universe)
    reads universe
    ensures r.0.None? <==> r.1 == []
    ensures r.0.Some? ==> |r.1| == 1 && r.1[0].cell == r.0.value.name
    ensures r.0.Some? && r.1[0].CircularDependency? ==> r.1[0].subject == subject && subject in Keys(r.0.value.subjects)
    decreases |universe - checking|, 0
  {
    if c in checking then (Some(c), [InvalidCellState(c.name)])
    else if subject in Keys(c.subjects) then (Some(c), [CircularDependency(subject, c.name)])
    else
      PathGrows(universe, checking, c);
      SearchEach(c.subjects, subject, checking + {c}, universe)
  }

  /** The loop over the subjects: the first non-null result, or null. */
  function SearchEach(subs: seq<Cell>, subject: string, checking: set<Cell>, ghost universe: set<Cell>): (r: (Option<Cell>, seq<Diagnostic>))
    requires Closed(universe) && forall i | 0 <= i < |subs| :: subs[i] in universe
    reads universe
    ensures r.0.None? <==> r.1 == []
    ensures r.0.Some? ==> |r.1| == 1 && r.1[0].cell == r.0.value.name
    ensures r.0.Some? && r.1[0].CircularDependency? ==> r.1[0].subject == subject && subject in Keys(r.0.value.subjects)
    decreases |universe - checking|, 1, |subs|
  {
    if subs == [] then (None, [])
    else
      var first := Search(subs[0], subject, checking, universe);
      if first.0.Some? then first else SearchEach(subs[1..], subject, checking, universe)
  }

  /** A cell off the path with no direct edge searches its subjects with
      itself on the path. */
  lemma SearchGoesDeeper(c: Cell, subject: string, checking: set<Cell>, universe: set<Cell>)
    requires c in universe && Closed(universe)
    requires c !in checking && subject !in Keys(c.subjects)
    ensures Search(c, subject, checking, universe) == SearchEach(c.subjects, subject, checking + {c}, universe)
  {
  }

  /** One subject of the loop: its result if non-null, otherwise the rest. */
  lemma SearchEachStep(subs: seq<Cell>, i: nat, subject: string, checking: set<Cell>, universe: set<Cell>)
    requires Closed(universe) && forall j | 0 <= j < |subs| :: subs[j] in universe
    requires i < |subs|
    ensures var first := Search(subs[i], subject, checking, universe);
      SearchEach(subs[i..], subject, checking, universe)
        == if first.0.Some? then first else SearchEach(subs[i + 1..], subject, checking, universe)
  {
    assert subs[i..][1..] == subs[i + 1..];
  }

  /** Some cell reachable from `c` along at most `n` subject edges has
      `subject` among its subjects. */
  ghost predicate ReachesEdge(c: Cell, subject: string, n: nat, universe: set<Cell>)
    requires c in universe && Closed(universe)
    reads universe
    decreases n
  {
    || subject in Keys(c.subjects)
    || (n > 0 && exists i | 0 <= i < |c.subjects| :: ReachesEdge(c.subjects[i], subject, n - 1, universe))
  }

  /** A null result is sound: no cell reachable from `c`, however far, has
      a direct edge to `subject`. */
  lemma {:induction false} NullMeansNoPath(c: Cell, subject: string, checking: set<Cell>, universe: set<Cell>, n: nat)
    requires c in universe && Closed(universe)
    requires Search(c, subject, checking, universe).0.None?
    ensures !ReachesEdge(c, subject, n, universe)
    decreases |universe - checking|, 0
  {
    if n > 0 {
      PathGrows(universe, checking, c);
      forall i | 0 <= i < |c.subjects|
        ensures !ReachesEdge(c.subjects[i], subject, n - 1, universe)
      {
        NullInEach(c.subjects, subject, checking + {c}, universe, i, n - 1);
      }
    }
  }

  lemma {:induction false} NullInEach(subs: seq<Cell>, subject: string, checking: set<Cell>, universe: set<Cell>, i: nat, n: nat)
    requires Closed(universe) && forall j | 0 <= j < |subs| :: subs[j] in universe
    requires SearchEach(subs, subject, checking, universe).0.None?
    requires i < |subs|
    ensures !ReachesEdge(subs[i], subject, n, universe)
    decreases |universe - checking|, 1, |subs|
  {
    if i == 0 {
      NullMeansNoPath(subs[0], subject, checking, universe, n);
    } else {
      NullInEach(subs[1..], subject, checking, universe, i - 1, n);
    }
  }

  /** A reported circular dependency is real: a cell reachable from `c`,
      through cells not on the current path, has a direct edge to
      `subject`. */
  lemma {:induction false} CircularMeansPath(c: Cell, subject: string, checking: set<Cell>, universe: set<Cell>)
    requires c in universe && Closed(universe)
    requires var r := Search(c, subject, checking, universe); r.0.Some? && r.1[0].CircularDependency?
    ensures ReachesEdge(c, subject, |universe - checking|, universe)
    decreases |universe - checking|, 0
  {
    if subject !in Keys(c.subjects) {
      PathGrows(universe, checking, c);
      var i := CircularInEach(c.subjects, subject, checking + {c}, universe);
    }
  }

  lemma {:induction false} CircularInEach(subs: seq<Cell>, subject: string, checking: set<Cell>, universe: set<Cell>) returns (i: nat)
    requires Closed(universe) && forall j | 0 <= j < |subs| :: subs[j] in universe
    requires var r := SearchEach(subs, subject, checking, universe); r.0.Some? && r.1[0].CircularDependency?
    ensures i < |subs| && ReachesEdge(subs[i], subject, |universe - checking|, universe)
    decreases |universe - checking|, 1, |subs|
  {
    var first := Search(subs[0], subject, checking, universe);
    if first.0.Some? {
      CircularMeansPath(subs[0], subject, checking, universe);
      i := 0;
    } else {
      var k := CircularInEach(subs[1..], subject, checking, universe);
      i := k + 1;
    }
  }

  class Cell {
    /** `Name`: the key of this cell in every map that holds it. */
    const name: string
    /** `Subjects`: the cells this cell watches. */
    var subjects: seq<Cell>
    /** `Observers`: the cells that watch this cell. */
    var observers: seq<Cell>

    /** The cell holds the name and the two maps it is given. */
    constructor (name: string, subjects: seq<Cell>, observers: seq<Cell>)
      ensures this.name == name && this.subjects == subjects && this.observers == observers
    {
      this.name := name;
      this.subjects, this.observers := subjects, observers;
    }

    /** `Watch`: `subject` is stored among the subjects under its name and
        this cell among its observers under this name, so the edge is
        recorded in both directions. */
    method Watch(subject: Cell)
      modifies this`subjects, subject`observers
      ensures subjects == MapSet(old(subjects), subject)
      ensures subject.observers == MapSet(old(subject.observers), this)
      ensures subject in subjects && this in subject.observers
      ensures Keyed(old(subjects)) && Keyed(old(subject.observers)) ==> Keyed(subjects) && Keyed(subject.observers)
    {
      if Keyed(subjects) {
        MapSetStores(subjects, subject);
      }
      subjects := MapSet(subjects, subject);
      ghost var before := subject.observers;
      subject.Notify(this);
      if Keyed(before) {
        MapSetStores(before, this);
      }
    }

    /** `Notify`: `observer` is stored under its name, replacing any entry
        with that name. */
    method Notify(observer: Cell)
      modifies this`observers
      ensures observers == MapSet(old(observers), observer)
    {
      observers := MapSet(observers, observer);
    }

    /** `ClearObserver`: the observer with that name is removed. */
    method ClearObserver(observer: Cell)
      modifies this`observers
      ensures observers == MapDelete(old(observers), observer.name)
    {
      observers := MapDelete(observers, observer.name);
    }

    /** `ClearSubjects`: every subject forgets this cell as an observer, and
        then the subjects are emptied. */
    method ClearSubjects()
      requires Keyed(subjects)
      modifies this`subjects, (set c | c in subjects)`observers
      ensures subjects == []
      ensures forall c | c in old(subjects) :: c.observers == MapDelete(old(c.observers), name)
    {
      var subs := subjects;
      for i := 0 to |subs|
        invariant forall j | 0 <= j < i :: subs[j].observers == MapDelete(old(subs[j].observers), name)
        invariant forall j | i <= j < |subs| :: subs[j].observers == old(subs[j].observers)
      {
        assert forall j | 0 <= j < |subs| && j != i :: subs[j] != subs[i] by {
          assert forall j | 0 <= j < |subs| && j != i :: subs[j].name != subs[i].name;
        }
        subs[i].ClearObserver(this);
      }
      subjects := [];
    }

    /** `HasSubject`: with `checking` holding the cells on the current path,
        a cell already on it is reported as `InvalidCellState` and returned;
        a cell with a direct edge to `subject` is reported as
        `CircularDependency` and returned; otherwise the subjects are
        searched in order with this cell on the path, and the first non-null
        result is returned, or null. `checking` holds on return what it
        held on entry. */
    method HasSubject(subject: Cell, diagnostics: Diagnostics, checking: CheckingCells, ghost universe: set<Cell>) returns (r: Option<Cell>)
      requires this in universe && Closed(universe)
      modifies diagnostics, checking
      ensures var s := Search(this, subject.name, old(checking.cells), universe);
        r == s.0 && diagnostics.reports == old(diagnostics.reports) + s.1
      ensures checking.cells == old(checking.cells)
      decreases |universe - checking.cells|, 1
    {
      if this in checking.cells {
        diagnostics.Report(InvalidCellState(name));
        return Some(this);
      }
      if subject.name in Keys(subjects) {
        diagnostics.Report(CircularDependency(subject.name, name));
        return Some(this);
      }
      ghost var entry := checking.cells;
      SearchGoesDeeper(this, subject.name, entry, universe);
      PathGrows(universe, entry, this);
      checking.cells := checking.cells + {this};
      r := SearchSubjects(subject, diagnostics, checking, universe);
      checking.cells := checking.cells - {this};
      assert checking.cells == entry;
    }

    /** The loop of `HasSubject` over the subjects, with this cell on the
        path: the first non-null result, or null. */
    method SearchSubjects(subject: Cell, diagnostics: Diagnostics, checking: CheckingCells, ghost universe: set<Cell>) returns (r: Option<Cell>)
      requires this in universe && Closed(universe)
      modifies diagnostics, checking
      ensures var s := SearchEach(subjects, subject.name, old(checking.cells), universe);
        r == s.0 && diagnostics.reports == old(diagnostics.reports) + s.1
      ensures checking.cells == old(checking.cells)
      decreases |universe - checking.cells|, 2
    {
      for i := 0 to |subjects|
        invariant checking.cells == old(checking.cells)
        invariant diagnostics.reports == old(diagnostics.reports)
        invariant SearchEach(subjects, subject.name, old(checking.cells), universe)
          == SearchEach(subjects[i..], subject.name, old(checking.cells), universe)
      {
        SearchEachStep(subjects, i, subject.name, checking.cells, universe);
        var result := subjects[i].HasSubject(subject, diagnostics, checking, universe);
        if result.Some? {
          return result;
        }
      }
      r := None;
    }
  }
}
