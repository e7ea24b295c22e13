/**
  * `render` in python/tools/catalog_overlay.py: the prefix tree of a catalogue, compiled to one class
  * per prefix with one property per child.
  */
module CatalogOverlay {
  import opened Results
  import Text

  /** A catalogue path, split at its slashes. */
  type Path = seq<string>

  /** What a snapshot accepts as a path: at least one segment, none of them empty or holding a slash. */
  predicate ValidPath(p: Path) {
    p != [] && forall i :: 0 <= i < |p| ==> p[i] != "" && '/' !in p[i]
  }

  predicate ValidEntries(entries: seq<Path>) {
    forall i :: 0 <= i < |entries| ==> ValidPath(entries[i])
  }

  /** A generated class: its number and its typed properties, in the order they are written. */
  datatype Class = Class(number: nat, properties: seq<(string, nat)>)

  // ---------------------------------------------------------------- names of prefixes

  /** `"/".join(path)`. */
  function Join(p: Path): string {
    if p == [] then "" else if |p| == 1 then p[0] else Join(p[..|p| - 1]) + "/" + p[|p| - 1]
  }

  /** The name of a child, as `render` composes it. */
  function Target(name: string, child: string): string {
    if name == "" then child else name + "/" + child
  }

  predicate Segments(p: Path) {
    forall i :: 0 <= i < |p| ==> p[i] != "" && '/' !in p[i]
  }

  lemma {:induction false} JoinIsEmptyForRoot(p: Path)
    requires Segments(p)
    ensures Join(p) == "" <==> p == []
  {
    if |p| > 1 {
      assert Join(p)[|Join(p[..|p| - 1])|] == '/';
    }
  }

  lemma JoinChild(p: Path, child: string)
    requires Segments(p)
    ensures Join(p + [child]) == Target(Join(p), child)
  {
    JoinIsEmptyForRoot(p);
    assert (p + [child])[..|p|] == p;
  }

  lemma LastSlash(x: string, s: string, y: string, t: string)
    requires '/' !in s && '/' !in t && x + "/" + s == y + "/" + t
    ensures x == y && s == t
  {
    var a, b := x + "/" + s, y + "/" + t;
    assert a[|x|] == '/' && b[|y|] == '/';
    assert |x| == |y|;
    assert a[..|x|] == x && b[..|y|] == y && a[|x| + 1..] == s && b[|y| + 1..] == t;
  }

  lemma LongJoinHasSlash(p: Path)
    ensures |p| > 1 ==> '/' in Join(p)
  {
    if |p| > 1 {
      assert Join(p)[|Join(p[..|p| - 1])|] == '/';
    }
  }

  /** Different prefixes have different names. */
  lemma {:induction false} JoinIsInjective(p: Path, q: Path)
    requires Segments(p) && Segments(q) && Join(p) == Join(q)
    ensures p == q
  {
    JoinIsEmptyForRoot(p);
    JoinIsEmptyForRoot(q);
    if |p| > 1 && |q| > 1 {
      LastSlash(Join(p[..|p| - 1]), p[|p| - 1], Join(q[..|q| - 1]), q[|q| - 1]);
      JoinIsInjective(p[..|p| - 1], q[..|q| - 1]);
      assert p == p[..|p| - 1] + [p[|p| - 1]] && q == q[..|q| - 1] + [q[|q| - 1]];
    } else if |p| > 1 || |q| > 1 {
      LongJoinHasSlash(p);
      LongJoinHasSlash(q);
    }
  }

  // ---------------------------------------------------------------- the prefix tree

  /** `q` is a prefix of a catalogue path. */
  ghost predicate IsNode(entries: seq<Path>, q: Path) {
    q == [] || exists p :: p in entries && q <= p
  }

  /** The segments that follow `q` in some catalogue path: what the snapshot lists as its children. */
  function ChildSet(entries: seq<Path>, q: Path): set<string> {
    set p | p in entries && |q| < |p| && q <= p :: p[|q|]
  }

  function Children(entries: seq<Path>, q: Path): seq<string> {
    Text.Sorted(ChildSet(entries, q))
  }

  lemma NodesAreSegments(entries: seq<Path>, q: Path)
    requires ValidEntries(entries) && IsNode(entries, q)
    ensures Segments(q)
  {
    if q != [] {
      var p :| p in entries && q <= p;
      var i :| 0 <= i < |entries| && entries[i] == p;
      assert forall k :: 0 <= k < |q| ==> q[k] == p[k];
    }
  }

  /** Children extend a node to a node, and there are no others. */
  lemma ChildrenAreNodes(entries: seq<Path>, q: Path, child: string)
    requires IsNode(entries, q)
    ensures child in ChildSet(entries, q) <==> IsNode(entries, q + [child])
  {
    if child in ChildSet(entries, q) {
      var p :| p in entries && |q| < |p| && q <= p && p[|q|] == child;
      assert q + [child] <= p;
    }
    if IsNode(entries, q + [child]) {
      var p :| p in entries && q + [child] <= p;
      assert q <= p && p[|q|] == child;
    }
  }

  /** The set `paths` of `render`, by name. */
  ghost function Names(entries: seq<Path>): set<string> {
    {""} + set p, i | p in entries && 1 <= i <= |p| :: Join(p[..i])
  }

  // ---------------------------------------------------------------- the class graph

  /** The number of the class of `q`: the place of its name among all names in order. */
  ghost predicate Numbered(entries: seq<Path>, q: Path, k: nat) {
    var order := Text.Sorted(Names(entries));
    k < |order| && order[k] == Join(q)
  }

  /** Class `c` has exactly the properties of `q`'s children, each leading to that child's class. */
  ghost predicate ClassOf(entries: seq<Path>, q: Path, c: Class) {
    var children := Children(entries, q);
    && |c.properties| == |children|
    && forall i :: 0 <= i < |children| ==>
         c.properties[i].0 == children[i] && Numbered(entries, q + [children[i]], c.properties[i].1)
  }

  /** What `render` generates: every class once, in the order of its number, and the root's number. */
  ghost predicate Rendered(entries: seq<Path>, classes: seq<Class>, root: nat) {
    && |classes| == |Text.Sorted(Names(entries))|
    && Numbered(entries, [], root)
    && (forall k :: 0 <= k < |classes| ==> classes[k].number == k)
    && (forall q, k: nat :: Segments(q) && Numbered(entries, q, k) ==> ClassOf(entries, q, classes[k]))
  }

  function Lookup(properties: seq<(string, nat)>, name: string): Option<nat> {
    if properties == [] then None
    else if properties[0].0 == name then Some(properties[0].1)
    else Lookup(properties[1..], name)
  }

  /** The class reached by following property names. */
  function Follow(classes: seq<Class>, start: nat, names: seq<string>): Option<nat> {
    if names == [] then Some(start) else
      var before := Follow(classes, start, names[..|names| - 1]);
      if before.Some? && before.value < |classes|
      then Lookup(classes[before.value].properties, names[|names| - 1]) else None
  }

  /** Every name has one number and every number one name. */
  lemma NumbersAreUnique(entries: seq<Path>, q: Path, r: Path, j: nat, k: nat)
    requires Segments(q) && Segments(r) && Numbered(entries, q, j) && Numbered(entries, r, k)
    ensures j == k <==> q == r
  {
    var order := Text.Sorted(Names(entries));
    if j == k {
      JoinIsInjective(q, r);
    } else {
      Text.LessIsTotal(order[j], order[k]);
    }
  }

  lemma {:induction false} LookupFinds(properties: seq<(string, nat)>, name: string)
    ensures Lookup(properties, name).Some? ==>
              exists i :: 0 <= i < |properties| && properties[i] == (name, Lookup(properties, name).value)
    ensures Lookup(properties, name).None? ==> forall i :: 0 <= i < |properties| ==> properties[i].0 != name
  {
    if properties != [] && properties[0].0 != name {
      LookupFinds(properties[1..], name);
      if Lookup(properties, name).Some? {
        var i :| 0 <= i < |properties[1..]| && properties[1..][i] == (name, Lookup(properties[1..], name).value);
        assert properties[i + 1] == properties[1..][i];
      } else {
        forall i | 0 <= i < |properties| ensures properties[i].0 != name {
          assert i > 0 ==> properties[i] == properties[1..][i - 1];
        }
      }
    }
  }

  /** One step along a property leads to the class of the child, if there is such a child. */
  lemma StepReaches(entries: seq<Path>, q: Path, c: Class, child: string)
    requires ClassOf(entries, q, c)
    ensures match Lookup(c.properties, child)
            case Some(k) => child in ChildSet(entries, q) && Numbered(entries, q + [child], k)
            case None => child !in ChildSet(entries, q)
  {
    var children := Children(entries, q);
    LookupFinds(c.properties, child);
    assert Text.Elements(children) == ChildSet(entries, q);
    match Lookup(c.properties, child)
    case Some(k) =>
      var i :| 0 <= i < |c.properties| && c.properties[i] == (child, k);
      assert children[i] == child;
    case None =>
      assert forall i :: 0 <= i < |children| ==> c.properties[i].0 == children[i];
  }

  /**
    * The class graph refines the catalogue tree: following property names from the root arrives exactly
    * at the prefixes of catalogue paths, and at each of them in the class of that prefix.
    */
  lemma {:induction false} FollowingReachesTheTree(entries: seq<Path>, classes: seq<Class>, root: nat, q: Path)
    requires ValidEntries(entries) && Rendered(entries, classes, root)
    ensures match Follow(classes, root, q)
            case Some(k) => IsNode(entries, q) && Numbered(entries, q, k)
            case None => !IsNode(entries, q)
  {
    if q != [] {
      var parent, child := q[..|q| - 1], q[|q| - 1];
      assert q == parent + [child];
      FollowingReachesTheTree(entries, classes, root, parent);
      if IsNode(entries, parent) {
        NodesAreSegments(entries, parent);
        var k := Follow(classes, root, parent).value;
        StepReaches(entries, parent, classes[k], child);
        ChildrenAreNodes(entries, parent, child);
      } else {
        forall p | p in entries && q <= p ensures parent <= p {
        }
      }
    }
  }

  /** Every class is declared once, and every class a property or the root names is declared. */
  lemma ReferencesAreDeclared(entries: seq<Path>, classes: seq<Class>, root: nat, q: Path, k: nat, i: nat)
    requires ValidEntries(entries) && Rendered(entries, classes, root)
    requires Follow(classes, root, q) == Some(k)
    ensures k < |classes| && classes[k].number == k
    ensures i < |classes[k].properties| ==> classes[k].properties[i].1 < |classes|
  {
    FollowingReachesTheTree(entries, classes, root, q);
    NodesAreSegments(entries, q);
    assert ClassOf(entries, q, classes[k]);
  }

  /** No class is generated in vain: each is reached from the root. */
  lemma EveryClassIsReached(entries: seq<Path>, classes: seq<Class>, root: nat, k: nat) returns (q: Path)
    requires ValidEntries(entries) && Rendered(entries, classes, root) && k < |classes|
    ensures Follow(classes, root, q) == Some(k)
  {
    var order := Text.Sorted(Names(entries));
    assert order[k] in Text.Elements(order);
    if order[k] == "" {
      q := [];
      NumbersAreUnique(entries, [], [], root, k);
    } else {
      var p, i :| p in entries && 1 <= i <= |p| && Join(p[..i]) == order[k];
      q := p[..i];
      assert q <= p && IsNode(entries, q);
      FollowingReachesTheTree(entries, classes, root, q);
      NodesAreSegments(entries, q);
      NumbersAreUnique(entries, q, q, Follow(classes, root, q).value, k);
    }
  }

  // ---------------------------------------------------------------- rendering

  function Prefixes(p: Path): set<string> {
    set i | 1 <= i <= |p| :: Join(p[..i])
  }

  /** `paths.update(...)` for every entry. */
  method CollectNames(entries: seq<Path>) returns (paths: set<string>)
    ensures paths == Names(entries)
  {
    paths := {""};
    for n := 0 to |entries|
      invariant paths == Names(entries[..n])
    {
      NamesGrow(entries, n);
      paths := paths + Prefixes(entries[n]);
    }
    assert entries[..|entries|] == entries;
  }

  lemma NamesGrow(entries: seq<Path>, n: nat)
    requires n < |entries|
    ensures Names(entries[..n + 1]) == Names(entries[..n]) + Prefixes(entries[n])
  {
    var before, after := Names(entries[..n]), Names(entries[..n + 1]);
    assert entries[..n + 1] == entries[..n] + [entries[n]];
    forall name | name in before ensures name in after {
      if name != "" {
        var p, i :| p in entries[..n] && 1 <= i <= |p| && Join(p[..i]) == name;
        assert p in entries[..n + 1];
      }
    }
    forall name | name in Prefixes(entries[n]) ensures name in after {
      assert entries[n] in entries[..n + 1];
    }
  }

  /** What the snapshot's `children` answers for a name: the next segments of the paths through it. */
  function NextSegments(entries: seq<Path>, name: string): set<string> {
    set p, i | p in entries && 0 <= i < |p| && Join(p[..i]) == name :: p[i]
  }

  lemma NextSegmentsAreChildren(entries: seq<Path>, q: Path)
    requires ValidEntries(entries) && Segments(q)
    ensures NextSegments(entries, Join(q)) == ChildSet(entries, q)
  {
    forall child | child in NextSegments(entries, Join(q)) ensures child in ChildSet(entries, q) {
      var p, i :| p in entries && 0 <= i < |p| && Join(p[..i]) == Join(q) && p[i] == child;
      assert IsNode(entries, p);
      NodesAreSegments(entries, p);
      JoinIsInjective(p[..i], q);
    }
    forall child | child in ChildSet(entries, q) ensures child in NextSegments(entries, Join(q)) {
      var p :| p in entries && |q| < |p| && q <= p && p[|q|] == child;
      assert p[..|q|] == q;
    }
  }

  /** Class `c` lists the children of the prefix called `name`, each with the number of its name. */
  ghost predicate ListsChildren(entries: seq<Path>, order: seq<string>, name: string, c: Class) {
    var children := Text.Sorted(NextSegments(entries, name));
    && |c.properties| == |children|
    && forall i :: 0 <= i < |children| ==> Lists(order, Target(name, children[i]), children[i], c.properties[i])
  }

  ghost predicate Lists(order: seq<string>, target: string, child: string, property: (string, nat)) {
    property.0 == child && property.1 < |order| && order[property.1] == target
  }

  lemma ListedClassIsClass(entries: seq<Path>, q: Path, c: Class)
    requires ValidEntries(entries) && Segments(q)
    requires ListsChildren(entries, Text.Sorted(Names(entries)), Join(q), c)
    ensures ClassOf(entries, q, c)
  {
    NextSegmentsAreChildren(entries, q);
    var children := Children(entries, q);
    forall i | 0 <= i < |children|
      ensures c.properties[i].0 == children[i] && Numbered(entries, q + [children[i]], c.properties[i].1)
    {
      assert Lists(Text.Sorted(Names(entries)), Target(Join(q), children[i]), children[i], c.properties[i]);
      JoinChild(q, children[i]);
    }
  }

  /** Every child's class has a number when its parent has one. */
  lemma TargetIsNumbered(entries: seq<Path>, name: string, child: string)
    requires ValidEntries(entries) && name in Names(entries) && child in NextSegments(entries, name)
    ensures Target(name, child) in Names(entries)
  {
    var p, i :| p in entries && 0 <= i < |p| && Join(p[..i]) == name && p[i] == child;
    SegmentsAfterPrefix(entries, p, i);
    assert Join(p[..i + 1]) in Names(entries);
  }

  lemma SegmentsAfterPrefix(entries: seq<Path>, p: Path, i: nat)
    requires ValidEntries(entries) && p in entries && i < |p|
    ensures Join(p[..i + 1]) == Target(Join(p[..i]), p[i])
  {
    assert IsNode(entries, p);
    NodesAreSegments(entries, p);
    JoinChild(p[..i], p[i]);
    assert p[..i] + [p[i]] == p[..i + 1];
  }

  /** The number of every name. */
  method NumberNames(order: seq<string>) returns (numbers: map<string, nat>)
    requires Text.Ascending(order)
    ensures numbers.Keys == Text.Elements(order)
    ensures forall name :: name in numbers ==> numbers[name] < |order| && order[numbers[name]] == name
  {
    numbers := map[];
    for index := 0 to |order|
      invariant forall name :: name in numbers <==> name in order[..index]
      invariant forall name :: name in numbers ==> numbers[name] < |order| && order[numbers[name]] == name
    {
      assert order[..index + 1] == order[..index] + [order[index]];
      numbers := numbers[order[index] := index];
    }
    assert order[..|order|] == order;
  }

  method RenderClass(entries: seq<Path>, order: seq<string>, numbers: map<string, nat>, index: nat) returns (c: Class)
    requires ValidEntries(entries) && index < |order| && order[index] in Names(entries)
    requires numbers.Keys == Names(entries)
    requires forall name :: name in numbers ==> numbers[name] < |order| && order[numbers[name]] == name
    ensures c.number == index && ListsChildren(entries, order, order[index], c)
  {
    var name := order[index];
    var children := Text.Sorted(NextSegments(entries, name));
    var properties := [];
    for i := 0 to |children|
      invariant |properties| == i
      invariant forall j :: 0 <= j < i ==> Lists(order, Target(name, children[j]), children[j], properties[j])
    {
      assert children[i] in Text.Elements(children);
      TargetIsNumbered(entries, name, children[i]);
      properties := properties + [(children[i], numbers[Target(name, children[i])])];
    }
    c := Class(index, properties);
  }

  /** One class per prefix, in the order of the prefixes' names. */
  method Render(entries: seq<Path>) returns (classes: seq<Class>, root: nat)
    requires ValidEntries(entries)
    ensures Rendered(entries, classes, root)
  {
    var paths := CollectNames(entries);
    var order := Text.Sorted(paths);
    var numbers := NumberNames(order);
    classes := [];
    for index := 0 to |order|
      invariant |classes| == index
      invariant forall k :: 0 <= k < index ==>
        classes[k].number == k && ListsChildren(entries, order, order[k], classes[k])
    {
      assert order[index] in Text.Elements(order);
      var c := RenderClass(entries, order, numbers, index);
      classes := classes + [c];
    }
    root := numbers[""];
    forall q, k: nat | Segments(q) && Numbered(entries, q, k) ensures ClassOf(entries, q, classes[k]) {
      ListedClassIsClass(entries, q, classes[k]);
    }
  }
}
