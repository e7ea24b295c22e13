/** `validate_graph` in tools/check_rust.py: the edge rules and the depth-first cycle check. */
module CrateCheck {
  import opened Text
  import opened CrateGraph

  // ---------------------------------------------------------------- the layering table

  const DOMAIN := "tf-domain"
  const PROTOCOL := "tf-protocol"
  const CATALOG := "tf-catalog"
  const PLAN := "tf-plan"
  const STORE := "tf-store"
  const EXEC := "tf-exec"
  const SCHEDULE := "tf-schedule"
  const API := "tf-api"
  const LSP := "tf-lsp"
  const TRANSFLOW := "transflow"

  /** The workspace crates and the crates each may depend on. */
  type Table = map<Name, set<Name>>

  const INTERNAL: Table := map[
    DOMAIN := {},
    PROTOCOL := {DOMAIN},
    CATALOG := {DOMAIN, PROTOCOL},
    PLAN := {DOMAIN, CATALOG},
    STORE := {DOMAIN, PROTOCOL},
    EXEC := {DOMAIN, PROTOCOL, PLAN, STORE},
    SCHEDULE := {DOMAIN, PLAN, STORE},
    API := {DOMAIN, PROTOCOL, CATALOG, PLAN, EXEC, SCHEDULE},
    LSP := {DOMAIN, CATALOG, API},
    TRANSFLOW := {DOMAIN, PROTOCOL, CATALOG, PLAN, STORE, EXEC, SCHEDULE, API, LSP}]

  /** `INTERNAL.get(name, set())`. */
  function Allowed(table: Table, name: Name): set<Name> {
    if name in table then table[name] else {}
  }

  function Level(name: Name): int {
    if name == DOMAIN then 0
    else if name == PROTOCOL then 1
    else if name == CATALOG || name == STORE then 2
    else if name == PLAN then 3
    else if name == EXEC || name == SCHEDULE then 4
    else if name == API then 5
    else if name == LSP then 6
    else 7
  }

  lemma TableIsLayered(a: Name, b: Name)
    requires b in Allowed(INTERNAL, a)
    ensures Level(b) < Level(a)
  {
  }

  predicate OnlyAllowed(table: Table, g: Graph) {
    forall a, b :: a in g && b in g[a] ==> b in Allowed(table, a)
  }

  /** A graph that uses only edges of the table has no cycle. */
  lemma AllowedGraphIsAcyclic(g: Graph)
    requires OnlyAllowed(INTERNAL, g)
    ensures Acyclic(g)
  {
    forall a, b | a in g && b in Targets(g, a) ensures Level(b) < Level(a) {
      TableIsLayered(a, b);
    }
    LayeredGraphIsAcyclic(g, Level);
  }

  // ---------------------------------------------------------------- the traversal

  /** Every name of the graph, as a source or as a target. */
  function Names(g: Graph): set<Name> {
    g.Keys + set a, b | a in g && b in g[a] :: b
  }

  /** The names that are not on the path. */
  function Left(g: Graph, path: seq<Name>): set<Name> {
    Names(g) - Elements(path)
  }

  lemma TargetsAreKnown(g: Graph, name: Name)
    ensures Targets(g, name) <= Names(g)
  {
  }

  predicate ActiveOk(g: Graph, active: seq<Name>) {
    Distinct(active) && IsPath(g, active)
  }

  predicate VisitedOk(g: Graph, visited: set<Name>, order: seq<Name>, reported: set<seq<Name>>) {
    visited == Elements(order) && OrderedBut(g, order, reported)
  }

  function CyclesIn(errors: seq<seq<Name>>): set<seq<Name>> {
    set c | c in errors
  }

  predicate ErrorsOk(g: Graph, reported: set<seq<Name>>, errors: seq<seq<Name>>) {
    && reported == CyclesIn(errors)
    && (forall i :: 0 <= i < |errors| ==> Reportable(g, errors[i]))
    && (forall i, j :: 0 <= i < j < |errors| ==> errors[i] != errors[j])
  }

  /** What holds of the variables that `visit` shares. */
  predicate SearchOk(g: Graph, visited: set<Name>, active: seq<Name>, reported: set<seq<Name>>,
                     errors: seq<seq<Name>>, order: seq<Name>)
  {
    && ActiveOk(g, active) && Elements(active) <= Names(g)
    && VisitedOk(g, visited, order, reported) && visited !! Elements(active)
    && ErrorsOk(g, reported, errors)
  }

  /** The cycles reported so far, and `c` if it is not among them. */
  function WithCycle(errors: seq<seq<Name>>, c: seq<Name>): seq<seq<Name>> {
    if c in errors then errors else errors + [c]
  }

  /** Reporting the cycle that closes at `name`, unless it is there already. */
  lemma ReportKeeps(g: Graph, visited: set<Name>, active: seq<Name>, reported: set<seq<Name>>,
                    errors: seq<seq<Name>>, order: seq<Name>, name: Name)
    requires SearchOk(g, visited, active, reported, errors, order)
    requires name in active && name in Targets(g, active[|active| - 1])
    ensures var c := ClosedAt(g, active, name);
      && (c in reported <==> c in errors)
      && SearchOk(g, visited, active, reported + {c}, WithCycle(errors, c), order)
      && Covered(reported + {c}, active[|active| - 1], name)
  {
    var c := ClosedAt(g, active, name);
    if c in reported {
      assert reported + {c} == reported;
    } else {
      OrderedButGrows(g, order, reported, reported + {c});
      ErrorsGrow(g, reported, errors, c);
    }
    assert c in reported + {c};
  }

  lemma ErrorsGrow(g: Graph, reported: set<seq<Name>>, errors: seq<seq<Name>>, c: seq<Name>)
    requires ErrorsOk(g, reported, errors) && Reportable(g, c) && c !in reported
    ensures ErrorsOk(g, reported + {c}, errors + [c]) && c !in errors
  {
    var all := errors + [c];
    assert all[|errors|] == c;
    assert forall d :: d in errors ==> d in all;
    assert reported + {c} == CyclesIn(all);
  }

  /** The first `n` targets were visited, or their edges lie on reported cycles. */
  predicate TargetsDone(
    visited: set<Name>, reported: set<seq<Name>>, name: Name, targets: seq<Name>, n: nat)
    requires n <= |targets|
  {
    forall k :: 0 <= k < n ==> targets[k] in visited || Covered(reported, name, targets[k])
  }

  lemma OneMoreDone(visited: set<Name>, reported: set<seq<Name>>, later: set<Name>, more: set<seq<Name>>,
                    name: Name, targets: seq<Name>, n: nat)
    requires n < |targets| && TargetsDone(visited, reported, name, targets, n)
    requires visited <= later && reported <= more
    requires targets[n] in later || Covered(more, name, targets[n])
    ensures TargetsDone(later, more, name, targets, n + 1)
  {
  }

  lemma AllDone(g: Graph, visited: set<Name>, reported: set<seq<Name>>, name: Name, targets: seq<Name>)
    requires Targets(g, name) == Elements(targets) && TargetsDone(visited, reported, name, targets, |targets|)
    ensures TargetsBut(g, name, reported) <= visited
  {
    forall b | b in TargetsBut(g, name, reported) ensures b in visited {
      var k :| 0 <= k < |targets| && targets[k] == b;
    }
  }

  /** The variables that `visit` shares. `errors` holds the cycles in the order they are reported. */
  class CycleCheck {
    const edges: Graph
    var visited: set<Name>
    var active: seq<Name>
    var reported: set<seq<Name>>
    var errors: seq<seq<Name>>
    ghost var order: seq<Name>  // the order of entry into `visited`

    ghost function Universe(): set<Name> {
      Names(edges)
    }

    ghost predicate Valid()
      reads this
    {
      SearchOk(edges, visited, active, reported, errors, order)
    }

    constructor (g: Graph)
      ensures Valid() && edges == g && visited == {} && active == [] && errors == [] && order == []
    {
      edges := g;
      visited, active, reported, errors, order := {}, [], {}, [], [];
    }

    /** Report the cycle that closes at `name`, unless a rotation of it was reported before. */
    method Report(name: Name)
      requires Valid() && name in active && name in Targets(edges, active[|active| - 1])
      modifies this`reported, this`errors
      ensures Valid() && Covered(reported, active[|active| - 1], name)
      ensures errors == WithCycle(old(errors), ClosedAt(edges, active, name))
    {
      var cycle := ClosedAt(edges, active, name);
      ReportKeeps(edges, visited, active, reported, errors, order, name);
      if cycle !in reported {
        errors := errors + [cycle];
        reported := reported + {cycle};
      }
      assert errors == WithCycle(old(errors), cycle) && reported == old(reported) + {cycle};
    }

    /** The name was entered into `visited`, or the edge that leads to it lies on a reported cycle. */
    ghost predicate Done(name: Name)
      reads this
    {
      name in visited || (active != [] && Covered(reported, active[|active| - 1], name))
    }

    method Visit(name: Name, ghost left: set<Name>)
      requires Valid() && name in Universe() && left == Left(edges, active)
      requires active != [] ==> name in Targets(edges, active[|active| - 1])
      modifies this
      ensures Valid() && active == old(active) && old(reported) <= reported && old(visited) <= visited
      ensures Done(name)
      decreases left, 1
    {
      if name in active {
        Report(name);
        return;
      }
      if name in visited {
        return;
      }
      ghost var path := active;
      Push(name);
      VisitAll(name, left);
      Finish(name, path);
    }

    method Push(name: Name)
      requires Valid() && name in Universe() && name !in active && name !in visited
      requires active != [] ==> name in Targets(edges, active[|active| - 1])
      modifies this`active
      ensures Valid() && active == old(active) + [name]
      ensures Left(edges, active) < old(Left(edges, active))
    {
      PushIsPath(edges, active, name);
      PushShrinks(edges, active, name);
      active := active + [name];
    }

    method Finish(name: Name, ghost path: seq<Name>)
      requires Valid() && active == path + [name]
      requires TargetsBut(edges, name, reported) <= visited
      modifies this`active, this`visited, this`order
      ensures Valid() && active == path
      ensures order == old(order) + [name] && visited == old(visited) + {name}
    {
      assert name in Elements(active);
      PopIsPath(edges, active);
      AppendToOrder(edges, order, name, reported);
      active := active[..|active| - 1];
      visited := visited + {name};
      order := order + [name];
    }

    /** The loop of `visit` over the sorted targets of `name`, which was just pushed. */
    method VisitAll(name: Name, ghost left: set<Name>)
      requires Valid() && active != [] && active[|active| - 1] == name && name in Universe()
      requires Left(edges, active) < left
      modifies this
      ensures Valid() && active == old(active) && old(reported) <= reported && old(visited) <= visited
      ensures TargetsBut(edges, name, reported) <= visited
      decreases left, 0
    {
      var targets := Sorted(Targets(edges, name));
      TargetsAreKnown(edges, name);
      ghost var path, fewer := active, Left(edges, active);
      for i := 0 to |targets|
        invariant Valid() && active == path
        invariant old(reported) <= reported && old(visited) <= visited
        invariant TargetsDone(visited, reported, name, targets, i)
      {
        ghost var was, before := visited, reported;
        assert targets[i] in Elements(targets);
        Visit(targets[i], fewer);
        OneMoreDone(was, before, visited, reported, name, targets, i);
      }
      AllDone(edges, visited, reported, name, targets);
    }

    /**
      * The loop over `sorted(edges)`. All names are visited, whatever was reported; without the edges of the reported
      * cycles there is no cycle, so every cycle shares an edge with one of them.
      */
    method Run()
      requires Valid() && visited == {} && active == [] && errors == [] && order == []
      modifies this
      ensures Valid() && active == [] && edges.Keys <= visited
      ensures Acyclic(Without(edges, CyclesIn(errors)))
      ensures forall c :: IsCycle(edges, c) ==> Meets(c, CyclesIn(errors))
      ensures errors == [] <==> Acyclic(edges)
    {
      var names := Sorted(edges.Keys);
      for i := 0 to |names|
        invariant Valid() && active == []
        invariant forall k :: 0 <= k < i ==> names[k] in visited
      {
        assert names[i] in Elements(names);
        Visit(names[i], Left(edges, []));
      }
      assert forall x :: x in edges.Keys ==> x in Elements(names);
      OrderedWithoutIsAcyclic(edges, order, reported);
      forall c | IsCycle(edges, c) ensures Meets(c, reported) {
        if !Meets(c, reported) {
          UnmetCycleRemains(edges, reported, c);
        }
      }
      if errors != [] {
        assert IsCycle(edges, errors[0]);
      }
    }
  }

  /** The cycle that closes when `name`, already active, is visited again; rotated to its least name. */
  function ClosedAt(g: Graph, active: seq<Name>, name: Name): (c: seq<Name>)
    requires ActiveOk(g, active) && name in active && name in Targets(g, active[|active| - 1])
    ensures Reportable(g, c) && HasEdge(c, active[|active| - 1], name)
  {
    SuffixIsCycle(g, active, IndexOf(active, name));
    CanonicalIsReportable(g, active[IndexOf(active, name)..]);
    CanonicalHasClosingEdge(active[IndexOf(active, name)..]);
    Canonical(active[IndexOf(active, name)..])
  }

  lemma CanonicalHasClosingEdge(c: seq<Name>)
    requires c != []
    ensures HasEdge(Canonical(c), c[|c| - 1], c[0])
  {
    assert After(c, |c| - 1) == c[0];
    assert c[0] in Elements(c);
    RotationKeepsEdge(c, IndexOf(c, Min(Elements(c))), c[|c| - 1], c[0]);
  }

  lemma SuffixIsCycle(g: Graph, active: seq<Name>, i: nat)
    requires Distinct(active) && IsPath(g, active) && i < |active|
    requires active[i] in Targets(g, active[|active| - 1])
    ensures IsCycle(g, active[i..]) && Distinct(active[i..])
  {
    var c := active[i..];
    forall k | 0 <= k < |c| - 1 ensures c[k + 1] in Targets(g, c[k]) {
      assert active[i + k + 1] in Targets(g, active[i + k]);
    }
  }

  lemma PushIsPath(g: Graph, active: seq<Name>, name: Name)
    requires Distinct(active) && IsPath(g, active) && name !in active
    requires active != [] ==> name in Targets(g, active[|active| - 1])
    ensures Distinct(active + [name]) && IsPath(g, active + [name])
    ensures Elements(active + [name]) == Elements(active) + {name}
  {
    var p := active + [name];
    forall k | 0 <= k < |p| - 1 ensures p[k + 1] in Targets(g, p[k]) {
      if k < |active| - 1 { assert active[k + 1] in Targets(g, active[k]); }
    }
  }

  lemma PopIsPath(g: Graph, active: seq<Name>)
    requires ActiveOk(g, active) && active != []
    ensures ActiveOk(g, active[..|active| - 1])
    ensures Elements(active[..|active| - 1]) == Elements(active) - {active[|active| - 1]}
  {
    var p := active[..|active| - 1];
    forall k | 0 <= k < |p| - 1 ensures p[k + 1] in Targets(g, p[k]) {
      assert active[k + 1] in Targets(g, active[k]);
    }
    assert active == p + [active[|active| - 1]];
  }

  lemma PushShrinks(g: Graph, active: seq<Name>, name: Name)
    requires name in Names(g) && name !in active
    ensures Left(g, active + [name]) < Left(g, active)
  {
    assert Elements(active + [name]) == Elements(active) + {name};
    assert name in Left(g, active);
  }

  lemma AppendToOrder(g: Graph, order: seq<Name>, name: Name, reported: set<seq<Name>>)
    requires OrderedBut(g, order, reported) && name !in order && TargetsBut(g, name, reported) <= Elements(order)
    ensures OrderedBut(g, order + [name], reported) && Elements(order + [name]) == Elements(order) + {name}
  {
    var all := order + [name];
    forall i | 0 <= i < |all| ensures TargetsBut(g, all[i], reported) <= Elements(all[..i]) {
      assert all[..i] == order[..i];
    }
  }

  // ---------------------------------------------------------------- the whole graph check

  /** A workspace member with the package names it depends on, aliases resolved. */
  datatype Package = Package(name: Name, dependencies: seq<Name>)

  /** The package depends on the crate `b` of this workspace. */
  predicate DependsOn(table: Table, p: Package, b: Name) {
    b in p.dependencies && b in table
  }

  /** The first `m` dependencies, those that are crates of this workspace, in order. */
  function Internal(table: Table, dependencies: seq<Name>, m: nat): (targets: seq<Name>)
    requires m <= |dependencies|
    ensures forall b :: b in targets <==> b in table && b in dependencies[..m]
  {
    if m == 0 then []
    else Internal(table, dependencies, m - 1) + (if dependencies[m - 1] in table then [dependencies[m - 1]] else [])
  }

  function NamesOf(packages: seq<Package>): set<Name> {
    set p | p in packages :: p.name
  }

  /** The edges recorded after the first `n` packages. */
  function Edges(table: Table, packages: seq<Package>, n: nat): (g: Graph)
    requires n <= |packages|
    ensures g.Keys == NamesOf(packages)
  {
    if n == 0 then map name | name in NamesOf(packages) :: []
    else
      var g := Edges(table, packages, n - 1);
      var p := packages[n - 1];
      g[p.name := g[p.name] + Internal(table, p.dependencies, |p.dependencies|)]
  }

  /** The internal ones among the first `m` dependencies of `name` that the table does not allow, in order. */
  function Outside(table: Table, name: Name, dependencies: seq<Name>, m: nat): (pairs: seq<(Name, Name)>)
    requires m <= |dependencies|
    ensures forall e :: e in pairs <==>
      e.0 == name && e.1 in table && e.1 !in Allowed(table, name) && e.1 in dependencies[..m]
  {
    if m == 0 then []
    else
      var b := dependencies[m - 1];
      Outside(table, name, dependencies, m - 1) +
      (if b in table && b !in Allowed(table, name) then [(name, b)] else [])
  }

  function Forbidden(table: Table, packages: seq<Package>, n: nat): (pairs: seq<(Name, Name)>)
    requires n <= |packages|
  {
    if n == 0 then []
    else
      var p := packages[n - 1];
      Forbidden(table, packages, n - 1) + Outside(table, p.name, p.dependencies, |p.dependencies|)
  }

  /** An edge is recorded exactly when a package of that name depends on that crate. */
  lemma {:induction false} EdgesAreDependencies(table: Table, packages: seq<Package>, n: nat, a: Name, b: Name)
    requires n <= |packages| && a in NamesOf(packages)
    ensures b in Edges(table, packages, n)[a] <==>
      exists i :: 0 <= i < n && packages[i].name == a && DependsOn(table, packages[i], b)
  {
    if n > 0 {
      EdgesAreDependencies(table, packages, n - 1, a, b);
      var d := packages[n - 1].dependencies;
      assert d[..|d|] == d;
    }
  }

  /** The recorded violations are exactly the edges outside the table. */
  lemma {:induction false} ForbiddenAreOutside(table: Table, packages: seq<Package>, n: nat, a: Name, b: Name)
    requires n <= |packages|
    ensures (a, b) in Forbidden(table, packages, n) <==>
      b !in Allowed(table, a) &&
      exists i :: 0 <= i < n && packages[i].name == a && DependsOn(table, packages[i], b)
  {
    if n > 0 {
      ForbiddenAreOutside(table, packages, n - 1, a, b);
      var d := packages[n - 1].dependencies;
      assert d[..|d|] == d;
    }
  }

  /** No violation is recorded exactly when every edge is allowed. */
  lemma NothingForbidden(table: Table, packages: seq<Package>)
    ensures Forbidden(table, packages, |packages|) == [] <==> OnlyAllowed(table, Edges(table, packages, |packages|))
  {
    var g := Edges(table, packages, |packages|);
    var pairs := Forbidden(table, packages, |packages|);
    if pairs != [] {
      var (a, b) := pairs[0];
      assert (a, b) in pairs;
      ForbiddenAreOutside(table, packages, |packages|, a, b);
      var i :| 0 <= i < |packages| && packages[i].name == a && DependsOn(table, packages[i], b);
      assert packages[i] in packages;
      EdgesAreDependencies(table, packages, |packages|, a, b);
      assert b in g[a];
    }
    forall a, b | a in g && b in g[a] && b !in Allowed(table, a) ensures (a, b) in pairs {
      EdgesAreDependencies(table, packages, |packages|, a, b);
      ForbiddenAreOutside(table, packages, |packages|, a, b);
    }
  }

  /** The dependencies of one package: internal targets become edges. */
  method AddPackage(table: Table, g: Graph, p: Package) returns (edges: Graph, outside: seq<(Name, Name)>)
    requires p.name in g
    ensures edges == g[p.name := g[p.name] + Internal(table, p.dependencies, |p.dependencies|)]
    ensures outside == Outside(table, p.name, p.dependencies, |p.dependencies|)
  {
    var targets := g[p.name];
    outside := [];
    for m := 0 to |p.dependencies|
      invariant targets == g[p.name] + Internal(table, p.dependencies, m)
      invariant outside == Outside(table, p.name, p.dependencies, m)
    {
      var target := p.dependencies[m];
      assert Internal(table, p.dependencies, m + 1) ==
        Internal(table, p.dependencies, m) + (if target in table then [target] else []);
      if target in table {
        targets := targets + [target];
        if target !in Allowed(table, p.name) {
          outside := outside + [(p.name, target)];
        }
      }
    }
    edges := g[p.name := targets];
  }

  /** Collect the internal edges, recording each one that the table does not allow. */
  method CollectEdges(table: Table, packages: seq<Package>) returns (edges: Graph, forbidden: seq<(Name, Name)>)
    ensures edges == Edges(table, packages, |packages|)
    ensures forbidden == Forbidden(table, packages, |packages|)
  {
    edges := map name | name in NamesOf(packages) :: [];
    forbidden := [];
    for n := 0 to |packages|
      invariant edges == Edges(table, packages, n)
      invariant forbidden == Forbidden(table, packages, n)
    {
      var outside;
      edges, outside := AddPackage(table, edges, packages[n]);
      forbidden := forbidden + outside;
    }
  }

  /**
    * The edge rules and the cycle check together: every cycle shares an edge with a reported one, so none is reported
    * exactly when the graph is acyclic, and a workspace that uses only allowed edges has none.
    */
  method ValidateGraph(packages: seq<Package>)
    returns (edges: Graph, forbidden: seq<(Name, Name)>, cycles: seq<seq<Name>>)
    ensures edges == Edges(INTERNAL, packages, |packages|)
    ensures forbidden == Forbidden(INTERNAL, packages, |packages|)
    ensures forall c :: IsCycle(edges, c) ==> Meets(c, CyclesIn(cycles))
    ensures cycles == [] <==> Acyclic(edges)
    ensures forall i :: 0 <= i < |cycles| ==> Reportable(edges, cycles[i])
    ensures forall i, j :: 0 <= i < j < |cycles| ==> cycles[i] != cycles[j]
    ensures forbidden == [] ==> cycles == []
  {
    edges, forbidden := CollectEdges(INTERNAL, packages);
    var check := new CycleCheck(edges);
    check.Run();
    cycles := check.errors;
    if forbidden == [] {
      NothingForbidden(INTERNAL, packages);
      AllowedGraphIsAcyclic(edges);
    }
  }
}
