/** The dependency graph of tools/check_rust.py: cycles, their canonical rotation, and orders that exclude them. */
module CrateGraph {
  import opened Text

  type Name = string
  type Graph = map<Name, seq<Name>>

  /** `set(edges.get(name, []))`. */
  function Targets(g: Graph, name: Name): set<Name> {
    if name in g then Elements(g[name]) else {}
  }

  predicate IsPath(g: Graph, p: seq<Name>) {
    forall i :: 0 <= i < |p| - 1 ==> p[i + 1] in Targets(g, p[i])
  }

  /** A closed walk. */
  predicate IsCycle(g: Graph, c: seq<Name>) {
    c != [] && IsPath(g, c) && c[0] in Targets(g, c[|c| - 1])
  }

  ghost predicate Acyclic(g: Graph) {
    forall c :: !IsCycle(g, c)
  }

  function Rotate(c: seq<Name>, k: nat): seq<Name>
    requires k <= |c|
  {
    c[k..] + c[..k]
  }

  /** `c.index(x)`. */
  function IndexOf(c: seq<Name>, x: Name): (i: nat)
    requires x in c
    ensures i < |c| && c[i] == x && x !in c[..i]
  {
    if c[0] == x then 0
    else
      var i := IndexOf(c[1..], x);
      assert c[..i + 1] == [c[0]] + c[1..][..i];
      i + 1
  }

  /** The rotation that starts at the least name. */
  function Canonical(c: seq<Name>): seq<Name>
    requires c != []
  {
    assert c[0] in Elements(c);
    Rotate(c, IndexOf(c, Min(Elements(c))))
  }

  lemma RotationKeepsCycle(g: Graph, c: seq<Name>, k: nat)
    requires IsCycle(g, c) && Distinct(c) && k < |c|
    ensures IsCycle(g, Rotate(c, k)) && Distinct(Rotate(c, k)) && Elements(Rotate(c, k)) == Elements(c)
  {
    var r := Rotate(c, k);
    var n := |c|;
    assert forall i :: 0 <= i < n ==> r[i] == if i < n - k then c[k + i] else c[i - (n - k)];
    forall x | x in c ensures x in r {
      var i :| 0 <= i < n && c[i] == x;
      assert r[if k <= i then i - k else i + (n - k)] == x;
    }
  }

  /** A name occurs at one position only, so two rotations starting at the same name are equal. */
  lemma RotationsWithSameHead(c: seq<Name>, j: nat, k: nat)
    requires Distinct(c) && j < |c| && k < |c| && Rotate(c, j)[0] == Rotate(c, k)[0]
    ensures j == k
  {
  }

  /** Every rotation of a simple cycle has the same canonical form. */
  lemma CanonicalIgnoresRotation(g: Graph, c: seq<Name>, k: nat)
    requires IsCycle(g, c) && Distinct(c) && k < |c|
    ensures Canonical(Rotate(c, k)) == Canonical(c)
  {
    var r := Rotate(c, k);
    RotationKeepsCycle(g, c, k);
    assert c[0] in Elements(c);
    var m := Min(Elements(c));
    var j := IndexOf(r, m);
    RotateTwice(c, k, j);
    RotationsWithSameHead(c, IndexOf(c, m), if k + j < |c| then k + j else k + j - |c|);
  }

  lemma RotateTwice(c: seq<Name>, k: nat, j: nat)
    requires k < |c| && j < |c|
    ensures Rotate(Rotate(c, k), j) == Rotate(c, if k + j < |c| then k + j else k + j - |c|)
  {
    var r := Rotate(c, k);
    if k + j < |c| {
      assert r[j..] == c[k + j..] + c[..k];
      assert r[..j] == c[k..k + j];
      assert c[..k] + c[k..k + j] == c[..k + j];
      assert (c[k + j..] + c[..k]) + c[k..k + j] == c[k + j..] + (c[..k] + c[k..k + j]);
    } else {
      var d := k + j - |c|;
      assert r[j..] == c[d..k];
      assert r[..j] == c[k..] + c[..d];
      assert c[d..k] + c[k..] == c[d..];
      assert c[d..k] + (c[k..] + c[..d]) == (c[d..k] + c[k..]) + c[..d];
    }
  }

  /** What each reported cycle is: a simple cycle of the graph, starting at its least name. */
  predicate Reportable(g: Graph, c: seq<Name>) {
    IsCycle(g, c) && Distinct(c) && IsLeast(c[0], Elements(c))
  }

  lemma CanonicalIsReportable(g: Graph, c: seq<Name>)
    requires IsCycle(g, c) && Distinct(c)
    ensures Reportable(g, Canonical(c)) && Elements(Canonical(c)) == Elements(c)
  {
    assert c[0] in Elements(c);
    var m := Min(Elements(c));
    RotationKeepsCycle(g, c, IndexOf(c, m));
  }

  /** A reportable cycle is its own canonical form, so two distinct reports are not rotations of each other. */
  lemma ReportsAreNotRotations(g: Graph, c: seq<Name>, d: seq<Name>, k: nat)
    requires Reportable(g, c) && Reportable(g, d) && k < |c| && d == Rotate(c, k)
    ensures c == d
  {
    RotationKeepsCycle(g, c, k);
    LeastIsUnique(c[0], d[0], Elements(c));
    RotationsWithSameHead(c, 0, k);
  }

  // ---------------------------------------------------------------- orders

  lemma TailIsPath(g: Graph, p: seq<Name>)
    requires IsPath(g, p) && p != []
    ensures IsPath(g, p[1..])
  {
    forall i | 0 <= i < |p[1..]| - 1 ensures p[1..][i + 1] in Targets(g, p[1..][i]) {
      assert p[i + 1 + 1] in Targets(g, p[i + 1]);
    }
  }

  /** `order` lists every dependency before the names that depend on it. */
  predicate ReverseTopological(g: Graph, order: seq<Name>) {
    Distinct(order) &&
    forall i :: 0 <= i < |order| ==> Targets(g, order[i]) <= Elements(order[..i])
  }

  lemma {:induction false} OrderDecreasesAlongPath(g: Graph, order: seq<Name>, p: seq<Name>)
    requires ReverseTopological(g, order) && IsPath(g, p) && p != []
    requires forall i :: 0 <= i < |p| ==> p[i] in order
    ensures IndexOf(order, p[|p| - 1]) <= IndexOf(order, p[0])
    decreases |p|
  {
    if |p| > 1 {
      var rest := p[1..];
      TailIsPath(g, p);
      OrderDecreasesAlongPath(g, order, rest);
      EdgeDecreases(g, order, p[0], p[1]);
    }
  }

  lemma EdgeDecreases(g: Graph, order: seq<Name>, a: Name, b: Name)
    requires ReverseTopological(g, order) && a in order && b in Targets(g, a)
    ensures b in order && IndexOf(order, b) < IndexOf(order, a)
  {
    var i := IndexOf(order, a);
    assert b in order[..i];
    var j :| 0 <= j < i && order[j] == b;
    assert IndexOf(order, b) == j;
  }

  /** A reverse topological order of all the names with dependencies excludes every cycle. */
  lemma OrderedGraphIsAcyclic(g: Graph, order: seq<Name>)
    requires ReverseTopological(g, order) && g.Keys <= Elements(order)
    ensures Acyclic(g)
  {
    forall c ensures !IsCycle(g, c) {
      if IsCycle(g, c) {
        forall i | 0 <= i < |c| ensures c[i] in order {
          assert c[if i < |c| - 1 then i + 1 else 0] in Targets(g, c[i]);
          assert c[i] in Elements(order);
        }
        EdgeDecreases(g, order, c[|c| - 1], c[0]);
        OrderDecreasesAlongPath(g, order, c);
      }
    }
  }

  // ---------------------------------------------------------------- graphs without some cycles' edges

  /** The name after position `i` of a cycle. */
  function After(c: seq<Name>, i: nat): Name
    requires i < |c|
  {
    if i + 1 < |c| then c[i + 1] else c[0]
  }

  predicate HasEdge(c: seq<Name>, a: Name, b: Name) {
    exists i :: 0 <= i < |c| && c[i] == a && After(c, i) == b
  }

  lemma RotationKeepsEdge(c: seq<Name>, k: nat, a: Name, b: Name)
    requires k < |c| && HasEdge(c, a, b)
    ensures HasEdge(Rotate(c, k), a, b)
  {
    var i :| 0 <= i < |c| && c[i] == a && After(c, i) == b;
    var r := Rotate(c, k);
    var j := if k <= i then i - k else i + (|c| - k);
    assert r[j] == a && After(r, j) == b;
  }

  /** The edge lies on one of the cycles. */
  predicate Covered(cycles: set<seq<Name>>, a: Name, b: Name) {
    exists c :: c in cycles && HasEdge(c, a, b)
  }

  /** Some edge of the cycle lies on one of the cycles. */
  predicate Meets(c: seq<Name>, cycles: set<seq<Name>>) {
    exists i :: 0 <= i < |c| && Covered(cycles, c[i], After(c, i))
  }

  /** The targets of a name along edges that lie on none of the cycles. */
  function TargetsBut(g: Graph, name: Name, cycles: set<seq<Name>>): set<Name> {
    set b | b in Targets(g, name) && !Covered(cycles, name, b)
  }

  /** The graph without the edges of the cycles. */
  function Without(g: Graph, cycles: set<seq<Name>>): Graph {
    map a | a in g :: Sorted(TargetsBut(g, a, cycles))
  }

  lemma TargetsWithout(g: Graph, cycles: set<seq<Name>>, name: Name)
    ensures Targets(Without(g, cycles), name) == TargetsBut(g, name, cycles)
  {
  }

  /** `order` lists every dependency before the names that depend on it, except along edges of the cycles. */
  predicate OrderedBut(g: Graph, order: seq<Name>, cycles: set<seq<Name>>) {
    Distinct(order) &&
    forall i :: 0 <= i < |order| ==> TargetsBut(g, order[i], cycles) <= Elements(order[..i])
  }

  lemma OrderedButGrows(g: Graph, order: seq<Name>, cycles: set<seq<Name>>, more: set<seq<Name>>)
    requires OrderedBut(g, order, cycles) && cycles <= more
    ensures OrderedBut(g, order, more)
  {
    forall i, b | 0 <= i < |order| && b in TargetsBut(g, order[i], more) ensures b in Elements(order[..i]) {
      assert b in TargetsBut(g, order[i], cycles);
    }
  }

  /** Such an order of all names with dependencies leaves no cycle once the edges of those cycles are taken away. */
  lemma OrderedWithoutIsAcyclic(g: Graph, order: seq<Name>, cycles: set<seq<Name>>)
    requires OrderedBut(g, order, cycles) && g.Keys <= Elements(order)
    ensures Acyclic(Without(g, cycles))
  {
    forall i | 0 <= i < |order| ensures Targets(Without(g, cycles), order[i]) <= Elements(order[..i]) {
      TargetsWithout(g, cycles, order[i]);
    }
    OrderedGraphIsAcyclic(Without(g, cycles), order);
  }

  /** A cycle that meets none of the cycles is still there without their edges. */
  lemma UnmetCycleRemains(g: Graph, cycles: set<seq<Name>>, c: seq<Name>)
    requires IsCycle(g, c) && !Meets(c, cycles)
    ensures IsCycle(Without(g, cycles), c)
  {
    forall i | 0 <= i < |c| ensures After(c, i) in Targets(Without(g, cycles), c[i]) {
      TargetsWithout(g, cycles, c[i]);
      assert !Covered(cycles, c[i], After(c, i));
      assert After(c, i) in Targets(g, c[i]);
    }
    forall i | 0 <= i < |c| - 1 ensures c[i + 1] in Targets(Without(g, cycles), c[i]) {
      assert After(c, i) == c[i + 1];
    }
    assert After(c, |c| - 1) == c[0];
  }

  // ---------------------------------------------------------------- layers

  /** A graph whose edges all go down in `level` has no cycle. */
  ghost predicate Layered(g: Graph, level: Name -> int) {
    forall a, b :: a in g && b in Targets(g, a) ==> level(b) < level(a)
  }

  lemma {:induction false} LevelDecreasesAlongPath(g: Graph, level: Name -> int, p: seq<Name>)
    requires Layered(g, level) && IsPath(g, p) && p != []
    ensures level(p[|p| - 1]) <= level(p[0])
    decreases |p|
  {
    if |p| > 1 {
      var rest := p[1..];
      TailIsPath(g, p);
      LevelDecreasesAlongPath(g, level, rest);
      assert p[1] in Targets(g, p[0]);
    }
  }

  lemma LastEdgeDecreases(g: Graph, level: Name -> int, c: seq<Name>)
    requires Layered(g, level) && IsCycle(g, c)
    ensures level(c[0]) < level(c[|c| - 1])
  {
    assert c[0] in Targets(g, c[|c| - 1]);
  }

  lemma LayeredGraphIsAcyclic(g: Graph, level: Name -> int)
    requires Layered(g, level)
    ensures Acyclic(g)
  {
    forall c ensures !IsCycle(g, c) {
      if IsCycle(g, c) {
        LastEdgeDecreases(g, level, c);
        LevelDecreasesAlongPath(g, level, c);
      }
    }
  }
}
