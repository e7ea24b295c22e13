/** The trigger tree of web/src/ScheduleEditor.tsx: clock queries, new conditions, and the edits of `TriggerEditor`. */
module TriggerTree {
  import opened Results

  datatype Trigger =
    | Manual
    | Cron(id: string, expression: string, timezone: string, both: bool)
    | DatasetEvent(headChanged: bool, id: string, dataset: string, branch: string, includeResets: bool)
    | BuildSucceeded(id: string, targets: seq<string>, branch: string)
    | ScheduleSucceeded(id: string, schedule: string, requireMaterialization: bool)
    | Group(all: bool, children: seq<Trigger>)

  // ---------------------------------------------------------------- leaves and clocks

  /** The leaves of the first `n` children, in order. */
  function LeavesOf(t: Trigger, n: nat): seq<Trigger>
    requires t.Group? && n <= |t.children|
    decreases t, n
  {
    if n == 0 then [] else LeavesOf(t, n - 1) + Leaves(t.children[n - 1])
  }

  /** The conditions of a tree, in the order they are shown. */
  function Leaves(t: Trigger): seq<Trigger>
    decreases t, (if t.Group? then |t.children| + 1 else 0)
  {
    if t.Group? then LeavesOf(t, |t.children|) else [t]
  }

  predicate HasClock(t: Trigger) {
    t.Cron? || (t.Group? && exists i :: 0 <= i < |t.children| && HasClock(t.children[i]))
  }

  function LabelOf(t: Trigger): string
    requires t.Cron?
  {
    t.expression + " · " + t.timezone
  }

  /** The label of the first child from `i` on that has one. */
  function ClockLabelFrom(t: Trigger, i: nat, id: string): string
    requires t.Group? && i <= |t.children|
    decreases t, |t.children| - i
  {
    if i == |t.children| then "" else
      var found := ClockLabel(t.children[i], id);
      if found != "" then found else ClockLabelFrom(t, i + 1, id)
  }

  function ClockLabel(t: Trigger, id: string): string
    decreases t, (if t.Group? then |t.children| + 1 else 0)
  {
    if t.Cron? && t.id == id then LabelOf(t) else if t.Group? then ClockLabelFrom(t, 0, id) else ""
  }

  lemma {:induction false} LeavesOfChild(t: Trigger, n: nat, i: nat)
    requires t.Group? && i < n <= |t.children|
    ensures forall leaf :: leaf in Leaves(t.children[i]) ==> leaf in LeavesOf(t, n)
  {
    if i < n - 1 {
      LeavesOfChild(t, n - 1, i);
    }
  }

  lemma {:induction false} LeafOfSomeChild(t: Trigger, n: nat, leaf: Trigger) returns (i: nat)
    requires t.Group? && n <= |t.children| && leaf in LeavesOf(t, n)
    ensures i < n && leaf in Leaves(t.children[i])
  {
    if leaf in Leaves(t.children[n - 1]) {
      i := n - 1;
    } else {
      i := LeafOfSomeChild(t, n - 1, leaf);
    }
  }

  /** A tree has a clock exactly when one of its leaves is a cron condition. */
  lemma {:induction false} HasClockIffCronLeaf(t: Trigger)
    ensures HasClock(t) <==> exists leaf :: leaf in Leaves(t) && leaf.Cron?
  {
    if t.Group? {
      forall i | 0 <= i < |t.children|
        ensures HasClock(t.children[i]) <==> exists leaf :: leaf in Leaves(t.children[i]) && leaf.Cron?
      {
        HasClockIffCronLeaf(t.children[i]);
      }
      if HasClock(t) {
        var i :| 0 <= i < |t.children| && HasClock(t.children[i]);
        LeavesOfChild(t, |t.children|, i);
      }
      if leaf :| leaf in Leaves(t) && leaf.Cron? {
        var i := LeafOfSomeChild(t, |t.children|, leaf);
        assert HasClock(t.children[i]);
      }
    } else {
      assert t in Leaves(t);
    }
  }

  /** The label of the first cron condition with this identifier in a list of leaves. */
  function FirstLabel(leaves: seq<Trigger>, id: string): string {
    if leaves == [] then ""
    else if leaves[0].Cron? && leaves[0].id == id then LabelOf(leaves[0])
    else FirstLabel(leaves[1..], id)
  }

  lemma {:induction false} FirstLabelConcat(a: seq<Trigger>, b: seq<Trigger>, id: string)
    ensures FirstLabel(a + b, id) == if FirstLabel(a, id) != "" then FirstLabel(a, id) else FirstLabel(b, id)
  {
    if a == [] {
      assert a + b == b;
    } else {
      assert (a + b)[0] == a[0] && (a + b)[1..] == a[1..] + b;
      FirstLabelConcat(a[1..], b, id);
    }
  }

  /** The leaves of the children from `i` on. */
  function LeavesFrom(t: Trigger, i: nat): seq<Trigger>
    requires t.Group? && i <= |t.children|
    decreases |t.children| - i
  {
    if i == |t.children| then [] else Leaves(t.children[i]) + LeavesFrom(t, i + 1)
  }

  lemma {:induction false} LeavesSplit(t: Trigger, i: nat)
    requires t.Group? && i <= |t.children|
    ensures Leaves(t) == LeavesOf(t, i) + LeavesFrom(t, i)
    decreases |t.children| - i
  {
    if i < |t.children| {
      LeavesSplit(t, i + 1);
    }
  }

  lemma {:induction false} ClockLabelFromIsFirst(t: Trigger, i: nat, id: string)
    requires t.Group? && i <= |t.children|
    ensures ClockLabelFrom(t, i, id) == FirstLabel(LeavesFrom(t, i), id)
    decreases t, |t.children| - i
  {
    if i < |t.children| {
      ClockLabelIsFirst(t.children[i], id);
      ClockLabelFromIsFirst(t, i + 1, id);
      FirstLabelConcat(Leaves(t.children[i]), LeavesFrom(t, i + 1), id);
    }
  }

  /** `clockLabel` finds the first cron leaf with the identifier, in the order shown. */
  lemma {:induction false} ClockLabelIsFirst(t: Trigger, id: string)
    ensures ClockLabel(t, id) == FirstLabel(Leaves(t), id)
    decreases t, (if t.Group? then |t.children| + 1 else 0)
  {
    if t.Group? {
      ClockLabelFromIsFirst(t, 0, id);
      LeavesSplit(t, 0);
      assert Leaves(t) == LeavesFrom(t, 0);
    } else {
      assert Leaves(t)[1..] == [];
    }
  }

  // ---------------------------------------------------------------- new conditions

  datatype Kind = KindManual | KindCron | KindPublished | KindHeadChanged | KindBuild | KindSchedule | KindAnd | KindOr

  /** What a new condition is made from: available datasets, the branch, and fresh identifiers. */
  datatype Context = Context(datasets: seq<string>, branch: string, timezone: string)

  function NewCron(c: Context, id: string): Trigger {
    Cron(id, "0 9 * * 1-5", c.timezone, false)
  }

  function NewTrigger(kind: Kind, c: Context, id: string, second: string): Trigger {
    match kind
    case KindAnd => Group(true, [NewCron(c, id), NewCron(c, second)])
    case KindOr => Group(false, [NewCron(c, id), NewCron(c, second)])
    case KindCron => NewCron(c, id)
    case KindPublished => if c.datasets != [] then DatasetEvent(false, id, c.datasets[0], c.branch, false) else Manual
    case KindHeadChanged => if c.datasets != [] then DatasetEvent(true, id, c.datasets[0], c.branch, false) else Manual
    case KindBuild => BuildSucceeded(id, if c.datasets != [] then [c.datasets[0]] else [], c.branch)
    case KindSchedule => ScheduleSucceeded(id, "", true)
    case KindManual => Manual
  }

  // ---------------------------------------------------------------- edits

  const DEEPEST := 7
  const MOST := 64

  /** The edits a card offers; `Fields` is any change to the fields of a leaf, of the same kind and identifier. */
  datatype Edit = ChangeKind(kind: Kind, id: string, second: string)
                | Fields(leaf: Trigger)
                | Wrap(id: string)
                | AddCondition(id: string)
                | Regroup(all: bool)
                | Remove(i: nat)

  predicate Grouping(kind: Kind) {
    kind.KindAnd? || kind.KindOr?
  }

  predicate SameLeaf(t: Trigger, u: Trigger) {
    match t
    case Cron(id, _, _, _) => u.Cron? && u.id == id
    case DatasetEvent(h, id, _, _, _) => u.DatasetEvent? && u.headChanged == h && u.id == id
    case BuildSucceeded(id, _, _) => u.BuildSucceeded? && u.id == id
    case ScheduleSucceeded(id, _, _) => u.ScheduleSucceeded? && u.id == id
    case Manual => false
    case Group(_, _) => false
  }

  /** Which edits the card at this depth offers. */
  predicate Offered(t: Trigger, depth: nat, e: Edit) {
    match e
    case ChangeKind(kind, _, _) =>
      !t.Group? && (depth == 0 || !kind.KindManual?) && (depth < DEEPEST || !Grouping(kind))
    case Fields(leaf) => SameLeaf(t, leaf)
    case Wrap(_) => !t.Group? && !t.Manual? && depth < DEEPEST
    case AddCondition(_) => t.Group? && |t.children| < MOST
    case Regroup(_) => t.Group?
    case Remove(i) => t.Group? && i < |t.children|
  }

  function Without(children: seq<Trigger>, i: nat): seq<Trigger>
    requires i < |children|
  {
    children[..i] + children[i + 1..]
  }

  /** What an edit makes of the card it is used on. */
  function EditHere(t: Trigger, depth: nat, e: Edit, c: Context): Trigger
    requires Offered(t, depth, e)
  {
    match e
    case ChangeKind(kind, id, second) =>
      if !Grouping(kind) then NewTrigger(kind, c, id, second)
      else if t.Manual? then Group(kind.KindAnd?, [NewCron(c, id), NewCron(c, second)])
      else Group(kind.KindAnd?, [t, NewCron(c, id)])
    case Fields(leaf) => leaf
    case Wrap(id) => Group(true, [t, NewCron(c, id)])
    case AddCondition(id) => Group(t.all, t.children + [NewCron(c, id)])
    case Regroup(all) => Group(all, t.children)
    case Remove(i) =>
      var rest := Without(t.children, i);
      if |rest| == 1 then rest[0] else if |rest| > 1 then Group(t.all, rest) else t
  }

  /** The card reached from `t` by child indices. */
  function At(t: Trigger, path: seq<nat>): Option<Trigger> {
    if path == [] then Some(t)
    else if t.Group? && path[0] < |t.children| then At(t.children[path[0]], path[1..])
    else None
  }

  function Replace(t: Trigger, path: seq<nat>, u: Trigger): Trigger
    requires At(t, path).Some?
  {
    if path == [] then u
    else Group(t.all, t.children[path[0] := Replace(t.children[path[0]], path[1..], u)])
  }

  predicate Possible(t: Trigger, path: seq<nat>, e: Edit) {
    At(t, path).Some? && Offered(At(t, path).value, |path|, e)
  }

  /** An edit of the whole tree: every enclosing card passes the change up. */
  function Apply(t: Trigger, path: seq<nat>, e: Edit, c: Context): Trigger
    requires Possible(t, path, e)
  {
    Replace(t, path, EditHere(At(t, path).value, |path|, e, c))
  }

  // ---------------------------------------------------------------- well-formed trees

  /** At most seven levels below the root, two to 64 conditions in a group, and `manual` only alone. */
  predicate WellFormed(t: Trigger, depth: nat) {
    match t
    case Manual => depth == 0
    case Group(_, children) =>
      depth < DEEPEST && 2 <= |children| <= MOST &&
      forall i :: 0 <= i < |children| ==> WellFormed(children[i], depth + 1)
    case _ => depth <= DEEPEST
  }

  /** The one edit that breaks a tree: asking for a dataset condition below the root when there are no datasets. */
  predicate WantsMissingDataset(e: Edit, depth: nat, c: Context) {
    e.ChangeKind? && (e.kind.KindPublished? || e.kind.KindHeadChanged?) && c.datasets == [] && depth > 0
  }

  lemma {:induction false} ShallowerIsWellFormed(t: Trigger, depth: nat)
    requires WellFormed(t, depth + 1)
    ensures WellFormed(t, depth)
  {
    if t.Group? {
      forall i | 0 <= i < |t.children| ensures WellFormed(t.children[i], depth + 1) {
        ShallowerIsWellFormed(t.children[i], depth + 1);
      }
    }
  }

  lemma EditHereKeepsWellFormed(t: Trigger, depth: nat, e: Edit, c: Context)
    requires WellFormed(t, depth) && Offered(t, depth, e)
    ensures WellFormed(EditHere(t, depth, e, c), depth) <==> !WantsMissingDataset(e, depth, c)
  {
    match e
    case Remove(i) =>
      var rest := Without(t.children, i);
      if |rest| == 1 {
        ShallowerIsWellFormed(rest[0], depth);
      }
    case Wrap(id) =>
      assert WellFormed(t, depth + 1) && WellFormed(NewCron(c, id), depth + 1);
    case ChangeKind(kind, id, second) =>
      if Grouping(kind) {
        assert WellFormed(NewCron(c, id), depth + 1) && WellFormed(NewCron(c, second), depth + 1);
      }
    case AddCondition(id) =>
      assert WellFormed(NewCron(c, id), depth + 1);
    case _ =>
  }

  lemma {:induction false} CardIsWellFormed(t: Trigger, path: seq<nat>, depth: nat)
    requires WellFormed(t, depth) && At(t, path).Some?
    ensures WellFormed(At(t, path).value, depth + |path|)
  {
    if path != [] {
      CardIsWellFormed(t.children[path[0]], path[1..], depth + 1);
    }
  }

  /** Replacing a card keeps the tree well formed exactly when the new card fits at its depth. */
  lemma {:induction false} ReplaceKeepsWellFormed(t: Trigger, path: seq<nat>, u: Trigger, depth: nat)
    requires WellFormed(t, depth) && At(t, path).Some?
    ensures WellFormed(Replace(t, path, u), depth) <==> WellFormed(u, depth + |path|)
  {
    if path != [] {
      var i := path[0];
      ReplaceKeepsWellFormed(t.children[i], path[1..], u, depth + 1);
      var r := Replace(t, path, u);
      assert r.children[i] == Replace(t.children[i], path[1..], u);
      assert forall j :: 0 <= j < |t.children| && j != i ==> r.children[j] == t.children[j];
    }
  }

  /** An edit keeps the tree well formed, unless it asks for a dataset condition that cannot be made. */
  lemma EditKeepsWellFormed(t: Trigger, path: seq<nat>, e: Edit, c: Context)
    requires WellFormed(t, 0) && Possible(t, path, e)
    ensures WellFormed(Apply(t, path, e, c), 0) <==> !WantsMissingDataset(e, |path|, c)
  {
    CardIsWellFormed(t, path, 0);
    var card := At(t, path).value;
    EditHereKeepsWellFormed(card, |path|, e, c);
    ReplaceKeepsWellFormed(t, path, EditHere(card, |path|, e, c), 0);
  }

  datatype Step = Step(path: seq<nat>, edit: Edit, context: Context)

  predicate PossibleEdits(t: Trigger, steps: seq<Step>)
    decreases |steps|
  {
    steps == [] ||
    (Possible(t, steps[0].path, steps[0].edit) &&
     PossibleEdits(Apply(t, steps[0].path, steps[0].edit, steps[0].context), steps[1..]))
  }

  function AfterEdits(t: Trigger, steps: seq<Step>): Trigger
    requires PossibleEdits(t, steps)
    decreases |steps|
  {
    if steps == [] then t else AfterEdits(Apply(t, steps[0].path, steps[0].edit, steps[0].context), steps[1..])
  }

  /** Over any sequence of edits with datasets to choose from, the tree stays well formed. */
  lemma {:induction false} EditsKeepWellFormed(t: Trigger, steps: seq<Step>)
    requires WellFormed(t, 0) && PossibleEdits(t, steps)
    requires forall i :: 0 <= i < |steps| ==> steps[i].context.datasets != []
    ensures WellFormed(AfterEdits(t, steps), 0)
    decreases |steps|
  {
    if steps != [] {
      EditKeepsWellFormed(t, steps[0].path, steps[0].edit, steps[0].context);
      EditsKeepWellFormed(Apply(t, steps[0].path, steps[0].edit, steps[0].context), steps[1..]);
    }
  }

  /** Without datasets, a child that is turned into a dataset condition becomes `manual` inside a group. */
  lemma MissingDatasetBreaksTree(c: Context, a: Trigger, b: Trigger, id: string, second: string)
    requires a.Cron? && b.Cron? && c.datasets == []
    ensures var t := Group(true, [a, b]); var e := ChangeKind(KindPublished, id, second);
            && WellFormed(t, 0) && Possible(t, [0], e)
            && !WellFormed(Apply(t, [0], e, c), 0)
  {
    var t := Group(true, [a, b]);
    var path: seq<nat> := [0];
    assert path[1..] == [];
    assert t.children[0] == a && t.children[1] == b;
    assert At(t, path) == At(a, []);
    EditKeepsWellFormed(t, path, ChangeKind(KindPublished, id, second), c);
  }

  // ---------------------------------------------------------------- what an edit leaves alone

  /** The leaves shown before and after a card. */
  function Before(t: Trigger, path: seq<nat>): seq<Trigger>
    requires At(t, path).Some?
  {
    if path == [] then [] else LeavesOf(t, path[0]) + Before(t.children[path[0]], path[1..])
  }

  function After(t: Trigger, path: seq<nat>): seq<Trigger>
    requires At(t, path).Some?
  {
    if path == [] then [] else After(t.children[path[0]], path[1..]) + LeavesFrom(t, path[0] + 1)
  }

  lemma {:induction false} LeavesOfAgree(t: Trigger, u: Trigger, n: nat)
    requires t.Group? && u.Group? && n <= |t.children| && n <= |u.children| && t.children[..n] == u.children[..n]
    ensures LeavesOf(t, n) == LeavesOf(u, n)
  {
    if n > 0 {
      assert t.children[..n - 1] == t.children[..n][..n - 1] == u.children[..n - 1];
      assert t.children[n - 1] == t.children[..n][n - 1] == u.children[n - 1];
      LeavesOfAgree(t, u, n - 1);
    }
  }

  lemma {:induction false} LeavesFromAgree(t: Trigger, u: Trigger, i: nat, j: nat)
    requires t.Group? && u.Group? && i <= |t.children| && j <= |u.children| && t.children[i..] == u.children[j..]
    ensures LeavesFrom(t, i) == LeavesFrom(u, j)
    decreases |t.children| - i
  {
    assert |t.children| - i == |t.children[i..]| == |u.children[j..]|;
    if i < |t.children| {
      assert t.children[i] == t.children[i..][0] == u.children[j];
      assert t.children[i + 1..] == t.children[i..][1..] == u.children[j + 1..];
      LeavesFromAgree(t, u, i + 1, j + 1);
    }
  }

  /** A tree's leaves are those before a card, those of the card, and those after it. */
  lemma {:induction false} LeavesAround(t: Trigger, path: seq<nat>)
    requires At(t, path).Some?
    ensures Leaves(t) == Before(t, path) + Leaves(At(t, path).value) + After(t, path)
  {
    if path != [] {
      LeavesAround(t.children[path[0]], path[1..]);
      LeavesSplit(t, path[0]);
    }
  }

  lemma ReplacedChildLeaves(t: Trigger, i: nat, v: Trigger)
    requires t.Group? && i < |t.children|
    ensures Leaves(Group(t.all, t.children[i := v])) == LeavesOf(t, i) + Leaves(v) + LeavesFrom(t, i + 1)
  {
    var r := Group(t.all, t.children[i := v]);
    LeavesSplit(r, i);
    LeavesOfAgree(t, r, i);
    LeavesFromAgree(t, r, i + 1, i + 1);
  }

  /** Replacing a card leaves every leaf before and after it in place, as it was. */
  lemma {:induction false} ReplaceKeepsOtherLeaves(t: Trigger, path: seq<nat>, u: Trigger)
    requires At(t, path).Some?
    ensures Leaves(Replace(t, path, u)) == Before(t, path) + Leaves(u) + After(t, path)
  {
    if path != [] {
      var i := path[0];
      ReplaceKeepsOtherLeaves(t.children[i], path[1..], u);
      ReplacedChildLeaves(t, i, Replace(t.children[i], path[1..], u));
    }
  }

  /** What an edit does to the leaves of its own card. */
  function EditedLeaves(t: Trigger, e: Edit, c: Context): seq<Trigger>
    requires e.Remove? ==> t.Group? && e.i < |t.children|
  {
    match e
    case ChangeKind(kind, id, second) =>
      if !Grouping(kind) then [NewTrigger(kind, c, id, second)]
      else if t.Manual? then [NewCron(c, id), NewCron(c, second)] else Leaves(t) + [NewCron(c, id)]
    case Fields(leaf) => [leaf]
    case Wrap(id) => Leaves(t) + [NewCron(c, id)]
    case AddCondition(id) => Leaves(t) + [NewCron(c, id)]
    case Regroup(_) => Leaves(t)
    case Remove(i) => LeavesOf(t, i) + LeavesFrom(t, i + 1)
  }

  lemma PairLeaves(all: bool, a: Trigger, b: Trigger)
    ensures Leaves(Group(all, [a, b])) == Leaves(a) + Leaves(b)
  {
    var t := Group(all, [a, b]);
    assert LeavesOf(t, 2) == LeavesOf(t, 1) + Leaves(b);
    assert LeavesOf(t, 1) == LeavesOf(t, 0) + Leaves(a);
  }

  lemma RemoveLeaves(t: Trigger, i: nat)
    requires t.Group? && i < |t.children| && |t.children| >= 2
    ensures var rest := Without(t.children, i);
            Leaves(if |rest| == 1 then rest[0] else Group(t.all, rest)) == LeavesOf(t, i) + LeavesFrom(t, i + 1)
  {
    var rest := Without(t.children, i);
    var u := Group(t.all, rest);
    LeavesSplit(u, i);
    LeavesOfAgree(t, u, i);
    LeavesFromAgree(t, u, i + 1, i);
    if |rest| == 1 {
      assert LeavesOf(u, 1) == LeavesOf(u, 0) + Leaves(rest[0]);
    }
  }

  lemma EditHereLeaves(t: Trigger, depth: nat, e: Edit, c: Context)
    requires WellFormed(t, depth) && Offered(t, depth, e)
    ensures Leaves(EditHere(t, depth, e, c)) == EditedLeaves(t, e, c)
  {
    match e
    case ChangeKind(kind, id, second) =>
      if Grouping(kind) {
        PairLeaves(
          kind.KindAnd?, if t.Manual? then NewCron(c, id) else t, NewCron(c, if t.Manual? then second else id));
      }
    case Wrap(id) => PairLeaves(true, t, NewCron(c, id));
    case AddCondition(id) =>
      var u := Group(t.all, t.children + [NewCron(c, id)]);
      LeavesOfAgree(t, u, |t.children|);
      assert LeavesOf(u, |u.children|) == LeavesOf(u, |t.children|) + Leaves(NewCron(c, id));
    case Regroup(all) => LeavesOfAgree(t, Group(all, t.children), |t.children|);
    case Remove(i) => RemoveLeaves(t, i);
    case Fields(_) =>
  }

  /** An edit changes the leaves of its own card and no others: all before and after it keep identity and order. */
  lemma EditKeepsOtherLeaves(t: Trigger, path: seq<nat>, e: Edit, c: Context)
    requires WellFormed(t, 0) && Possible(t, path, e)
    ensures var card := At(t, path).value;
            && Leaves(t) == Before(t, path) + Leaves(card) + After(t, path)
            && Leaves(Apply(t, path, e, c)) == Before(t, path) + EditedLeaves(card, e, c) + After(t, path)
  {
    var card := At(t, path).value;
    CardIsWellFormed(t, path, 0);
    LeavesAround(t, path);
    EditHereLeaves(card, |path|, e, c);
    ReplaceKeepsOtherLeaves(t, path, EditHere(card, |path|, e, c));
  }

  // ---------------------------------------------------------------- the kind asked for

  /** The kind that a card shows as chosen. */
  function KindOf(t: Trigger): Kind {
    match t
    case Manual => KindManual
    case Cron(_, _, _, _) => KindCron
    case DatasetEvent(headChanged, _, _, _, _) => if headChanged then KindHeadChanged else KindPublished
    case BuildSucceeded(_, _, _) => KindBuild
    case ScheduleSucceeded(_, _, _) => KindSchedule
    case Group(all, _) => if all then KindAnd else KindOr
  }

  /** A dataset condition needs a dataset. */
  predicate CanMake(kind: Kind, c: Context) {
    kind.KindPublished? || kind.KindHeadChanged? ==> c.datasets != []
  }

  /** The identifier of a single condition; `manual` and groups have none. */
  function IdOf(t: Trigger): Option<string> {
    match t
    case Cron(id, _, _, _) => Some(id)
    case DatasetEvent(_, id, _, _, _) => Some(id)
    case BuildSucceeded(id, _, _) => Some(id)
    case ScheduleSucceeded(id, _, _) => Some(id)
    case _ => None
  }

  /**
    * Choosing a kind makes the card one of that kind, with the new identifier if it is a single condition, exactly if
    * that condition can be made; otherwise the card becomes `manual`.
    */
  lemma CardHasChosenKind(t: Trigger, path: seq<nat>, kind: Kind, id: string, second: string, c: Context)
    requires Possible(t, path, ChangeKind(kind, id, second))
    ensures var card := At(Apply(t, path, ChangeKind(kind, id, second), c), path);
      && card.Some?
      && (KindOf(card.value) == kind <==> CanMake(kind, c))
      && (CanMake(kind, c) && !Grouping(kind) && !kind.KindManual? ==> IdOf(card.value) == Some(id))
      && (!CanMake(kind, c) ==> card.value.Manual?)
  {
    var u := EditHere(At(t, path).value, |path|, ChangeKind(kind, id, second), c);
    ReplaceThenAt(t, path, u, u);
  }

  // ---------------------------------------------------------------- what removing undoes

  lemma {:induction false} ReplaceThenAt(t: Trigger, path: seq<nat>, u: Trigger, v: Trigger)
    requires At(t, path).Some?
    ensures At(Replace(t, path, u), path) == Some(u)
    ensures Replace(Replace(t, path, u), path, v) == Replace(t, path, v)
    ensures v == At(t, path).value ==> Replace(t, path, v) == t
  {
    if path != [] {
      var i := path[0];
      ReplaceThenAt(t.children[i], path[1..], u, v);
      var r := Replace(t, path, u);
      assert r.children[i] == Replace(t.children[i], path[1..], u);
      var w := Replace(t.children[i], path[1..], v);
      assert r.children[i := w] == t.children[i := w];
    }
  }

  /** Removing the condition that wrapping or adding appended gives the tree back. */
  lemma RemoveUndoesAppend(t: Trigger, path: seq<nat>, e: Edit, c: Context)
    requires WellFormed(t, 0) && Possible(t, path, e) && (e.Wrap? || e.AddCondition?)
    ensures var card := At(t, path).value;
            var last := if card.Group? then |card.children| else 1;
            Possible(Apply(t, path, e, c), path, Remove(last)) &&
            Apply(Apply(t, path, e, c), path, Remove(last), c) == t
  {
    var card := At(t, path).value;
    var last := if card.Group? then |card.children| else 1;
    CardIsWellFormed(t, path, 0);
    var grown := EditHere(card, |path|, e, c);
    ReplaceThenAt(t, path, grown, card);
    assert Without(grown.children, last) == if card.Group? then card.children else [card];
  }

  // ---------------------------------------------------------------- what a trigger means

  /** The tree fires once these conditions have occurred: a group when all, or when any, of its children do. */
  predicate Fires(t: Trigger, occurred: set<string>) {
    match t
    case Manual => false
    case Group(all, children) =>
      if all then forall i :: 0 <= i < |children| ==> Fires(children[i], occurred)
      else exists i :: 0 <= i < |children| && Fires(children[i], occurred)
    case Cron(id, _, _, _) => id in occurred
    case DatasetEvent(_, id, _, _, _) => id in occurred
    case BuildSucceeded(id, _, _) => id in occurred
    case ScheduleSucceeded(id, _, _) => id in occurred
  }

  function Both(all: bool, a: bool, b: bool): bool {
    if all then a && b else a || b
  }

  lemma PairFires(all: bool, a: Trigger, b: Trigger, occurred: set<string>)
    ensures Fires(Group(all, [a, b]), occurred) == Both(all, Fires(a, occurred), Fires(b, occurred))
  {
    var t := Group(all, [a, b]);
    assert t.children[0] == a && t.children[1] == b;
  }

  lemma AppendFires(t: Trigger, u: Trigger, occurred: set<string>)
    requires t.Group?
    ensures Fires(Group(t.all, t.children + [u]), occurred) == Both(t.all, Fires(t, occurred), Fires(u, occurred))
  {
    var g := Group(t.all, t.children + [u]);
    assert g.children[|t.children|] == u;
    assert forall i :: 0 <= i < |t.children| ==> g.children[i] == t.children[i];
  }

  lemma RemoveFires(t: Trigger, i: nat, occurred: set<string>)
    requires t.Group? && i < |t.children|
    ensures Fires(t, occurred) ==
      Both(t.all, Fires(Group(t.all, Without(t.children, i)), occurred), Fires(t.children[i], occurred))
  {
    var g := Group(t.all, Without(t.children, i));
    assert forall j :: 0 <= j < i ==> g.children[j] == t.children[j];
    assert forall j :: i < j < |t.children| ==> g.children[j - 1] == t.children[j];
    assert forall j :: i <= j < |g.children| ==> g.children[j] == t.children[j + 1];
  }

  lemma SingleFires(all: bool, t: Trigger, occurred: set<string>)
    ensures Fires(Group(all, [t]), occurred) == Fires(t, occurred)
  {
    var g := Group(all, [t]);
    assert g.children[0] == t;
  }

  /** What an edit does to the meaning of its card, for any conditions that have occurred. */
  predicate MeansEdited(t: Trigger, e: Edit, c: Context, u: Trigger, occurred: set<string>) {
    match e
    case Wrap(id) => Fires(u, occurred) <==> Fires(t, occurred) && id in occurred
    case AddCondition(id) => t.Group? && Fires(u, occurred) == Both(t.all, Fires(t, occurred), id in occurred)
    case Regroup(all) => t.Group? && Fires(u, occurred) == Fires(Group(all, t.children), occurred)
    case Remove(i) =>
      t.Group? && i < |t.children| &&
      Fires(t, occurred) == Both(t.all, Fires(u, occurred), Fires(t.children[i], occurred))
    case ChangeKind(kind, id, second) =>
      Fires(u, occurred) ==
        if !Grouping(kind) then CanMake(kind, c) && !kind.KindManual? && id in occurred
        else if t.Manual? then Both(kind.KindAnd?, id in occurred, second in occurred)
        else Both(kind.KindAnd?, Fires(t, occurred), id in occurred)
    case Fields(_) => Fires(u, occurred) == Fires(t, occurred)
  }

  /**
    * Wrapping asks for the new condition as well; adding and removing join or leave a group by its own rule,
    * also when the group collapses; regrouping changes the rule; changing fields changes nothing; a card that becomes
    * a single condition asks for that one alone.
    */
  lemma EditMeansWhatItSays(t: Trigger, depth: nat, e: Edit, c: Context, occurred: set<string>)
    requires WellFormed(t, depth) && Offered(t, depth, e)
    ensures MeansEdited(t, e, c, EditHere(t, depth, e, c), occurred)
  {
    match e
    case ChangeKind(kind, id, second) =>
      if Grouping(kind) {
        PairFires(
          kind.KindAnd?, if t.Manual? then NewCron(c, id) else t, NewCron(c, if t.Manual? then second else id),
          occurred);
      }
    case Wrap(id) => PairFires(true, t, NewCron(c, id), occurred);
    case AddCondition(id) => AppendFires(t, NewCron(c, id), occurred);
    case Remove(i) =>
      RemoveFires(t, i, occurred);
      var rest := Without(t.children, i);
      if |rest| == 1 {
        assert rest == [rest[0]];
        SingleFires(t.all, rest[0], occurred);
      }
    case Regroup(_) =>
    case Fields(_) =>
  }

  // ---------------------------------------------------------------- every tree can be made

  lemma {:induction false} EditsInTurn(t: Trigger, a: seq<Step>, b: seq<Step>)
    requires PossibleEdits(t, a) && PossibleEdits(AfterEdits(t, a), b)
    ensures PossibleEdits(t, a + b) && AfterEdits(t, a + b) == AfterEdits(AfterEdits(t, a), b)
    decreases |a|
  {
    if a == [] {
      assert a + b == b;
    } else {
      assert (a + b)[0] == a[0] && (a + b)[1..] == a[1..] + b;
      EditsInTurn(Apply(t, a[0].path, a[0].edit, a[0].context), a[1..], b);
    }
  }

  const CONTEXT := Context(["dataset"], "main", "UTC")

  /** Edits that can be made one after the other, with datasets to choose from, and make `u` of `t`. */
  ghost predicate Makes(t: Trigger, steps: seq<Step>, u: Trigger) {
    && PossibleEdits(t, steps) && AfterEdits(t, steps) == u
    && forall i :: 0 <= i < |steps| ==> steps[i].context.datasets != []
  }

  lemma MakesInTurn(t: Trigger, a: seq<Step>, u: Trigger, b: seq<Step>, v: Trigger)
    requires Makes(t, a, u) && Makes(u, b, v)
    ensures Makes(t, a + b, v)
  {
    EditsInTurn(t, a, b);
  }

  lemma MakesByOne(t: Trigger, path: seq<nat>, e: Edit)
    requires Possible(t, path, e)
    ensures Makes(t, [Step(path, e, CONTEXT)], Apply(t, path, e, CONTEXT))
  {
    var steps := [Step(path, e, CONTEXT)];
    assert steps[1..] == [];
  }

  lemma {:induction false} AtChild(t: Trigger, path: seq<nat>, i: nat)
    requires At(t, path).Some? && At(t, path).value.Group? && i < |At(t, path).value.children|
    ensures At(t, path + [i]) == Some(At(t, path).value.children[i])
    ensures forall u ::
      (Replace(t, path + [i], u) ==
       Replace(t, path, Group(At(t, path).value.all, At(t, path).value.children[i := u])))
  {
    if path == [] {
      assert (path + [i])[1..] == [];
    } else {
      assert (path + [i])[0] == path[0] && (path + [i])[1..] == path[1..] + [i];
      AtChild(t.children[path[0]], path[1..], i);
    }
  }

  /** A card that is no group becomes any single condition, or `manual` at the root. */
  lemma LeafCanBeMade(t: Trigger, path: seq<nat>, target: Trigger) returns (steps: seq<Step>)
    requires At(t, path).Some? && !At(t, path).value.Group? && !target.Group? && WellFormed(target, |path|)
    ensures Makes(t, steps, Replace(t, path, target))
  {
    var id := if target.Manual? then "" else IdOf(target).value;
    var e := ChangeKind(KindOf(target), id, "");
    MakesByOne(t, path, e);
    steps := [Step(path, e, CONTEXT)];
    var u := Apply(t, path, e, CONTEXT);
    ReplaceThenAt(t, path, NewTrigger(KindOf(target), CONTEXT, id, ""), target);
    if !target.Manual? {
      MakesByOne(u, path, Fields(target));
      MakesInTurn(t, steps, u, [Step(path, Fields(target), CONTEXT)], Replace(t, path, target));
      steps := steps + [Step(path, Fields(target), CONTEXT)];
    }
  }

  predicate NoGroups(children: seq<Trigger>) {
    forall i :: 0 <= i < |children| ==> !children[i].Group?
  }

  /** Conditions are added to a group until it has `n`. */
  lemma {:induction false} GroupCanGrow(t: Trigger, path: seq<nat>, n: nat)
    returns (steps: seq<Step>, more: seq<Trigger>)
    requires At(t, path).Some? && At(t, path).value.Group? && NoGroups(At(t, path).value.children)
    requires |At(t, path).value.children| <= n <= MOST
    ensures |more| == n && NoGroups(more) && Makes(t, steps, Replace(t, path, Group(At(t, path).value.all, more)))
    decreases n - |At(t, path).value.children|
  {
    var card := At(t, path).value;
    if |card.children| == n {
      steps, more := [], card.children;
      ReplaceThenAt(t, path, card, card);
    } else {
      var e := AddCondition("");
      var grown := EditHere(card, |path|, e, CONTEXT);
      MakesByOne(t, path, e);
      var u := Apply(t, path, e, CONTEXT);
      ReplaceThenAt(t, path, grown, grown);
      var rest;
      rest, more := GroupCanGrow(u, path, n);
      steps := [Step(path, e, CONTEXT)] + rest;
      ReplaceThenAt(t, path, grown, Group(card.all, more));
      MakesInTurn(t, [Step(path, e, CONTEXT)], u, rest, Replace(t, path, Group(card.all, more)));
    }
  }

  /** A card that is no group becomes a group of `n` conditions. */
  lemma GroupCanStart(t: Trigger, path: seq<nat>, all: bool, n: nat) returns (steps: seq<Step>, children: seq<Trigger>)
    requires At(t, path).Some? && !At(t, path).value.Group? && |path| < DEEPEST && 2 <= n <= MOST
    ensures |children| == n && NoGroups(children) && Makes(t, steps, Replace(t, path, Group(all, children)))
  {
    var e := ChangeKind(if all then KindAnd else KindOr, "", "");
    var pair := EditHere(At(t, path).value, |path|, e, CONTEXT);
    MakesByOne(t, path, e);
    var u := Apply(t, path, e, CONTEXT);
    ReplaceThenAt(t, path, pair, pair);
    var rest;
    rest, children := GroupCanGrow(u, path, n);
    ReplaceThenAt(t, path, pair, Group(all, children));
    steps := [Step(path, e, CONTEXT)] + rest;
    MakesInTurn(t, [Step(path, e, CONTEXT)], u, rest, Replace(t, path, Group(all, children)));
  }

  /** The children from `i` on are made one after the other. */
  lemma {:induction false} ChildrenCanBeMade(t: Trigger, path: seq<nat>, target: Trigger, i: nat)
    returns (steps: seq<Step>)
    requires target.Group? && WellFormed(target, |path|) && i <= |target.children|
    requires At(t, path).Some? && At(t, path).value.Group? && At(t, path).value.all == target.all
    requires |At(t, path).value.children| == |target.children|
    requires At(t, path).value.children[..i] == target.children[..i] && NoGroups(At(t, path).value.children[i..])
    ensures Makes(t, steps, Replace(t, path, target))
    decreases target, 1, |target.children| - i
  {
    var card := At(t, path).value;
    if i == |target.children| {
      steps := [];
      assert card.children == target.children;
      ReplaceThenAt(t, path, card, card);
    } else {
      AtChild(t, path, i);
      assert card.children[i..][0] == card.children[i];
      var first := CanBeMade(t, path + [i], target.children[i]);
      var next := Group(card.all, card.children[i := target.children[i]]);
      var u := Replace(t, path, next);
      ReplaceThenAt(t, path, next, target);
      assert next.children[..i + 1] == target.children[..i + 1];
      assert next.children[i + 1..] == card.children[i..][1..];
      var rest := ChildrenCanBeMade(u, path, target, i + 1);
      steps := first + rest;
      MakesInTurn(t, first, u, rest, Replace(t, path, target));
    }
  }

  /** A card that is no group becomes any tree that is well formed at its depth. */
  lemma {:induction false} CanBeMade(t: Trigger, path: seq<nat>, target: Trigger) returns (steps: seq<Step>)
    requires At(t, path).Some? && !At(t, path).value.Group? && WellFormed(target, |path|)
    ensures Makes(t, steps, Replace(t, path, target))
    decreases target, 2, 0
  {
    if !target.Group? {
      steps := LeafCanBeMade(t, path, target);
    } else {
      var start, children := GroupCanStart(t, path, target.all, |target.children|);
      var u := Replace(t, path, Group(target.all, children));
      ReplaceThenAt(t, path, Group(target.all, children), target);
      var rest := ChildrenCanBeMade(u, path, target, 0);
      steps := start + rest;
      MakesInTurn(t, start, u, rest, Replace(t, path, target));
    }
  }

  /** Removing the last condition again and again leaves a single one. */
  lemma {:induction false} GroupCanShrink(t: Trigger) returns (steps: seq<Step>, leaf: Trigger)
    requires t.Group? && WellFormed(t, 0)
    ensures Makes(t, steps, leaf) && !leaf.Group?
    decreases t.children[0], |t.children|
  {
    var e := Remove(|t.children| - 1);
    var u := Apply(t, [], e, CONTEXT);
    MakesByOne(t, [], e);
    EditKeepsWellFormed(t, [], e, CONTEXT);
    steps, leaf := [Step([], e, CONTEXT)], u;
    if u.Group? {
      assert |t.children| > 2 ==> u.children == t.children[..|t.children| - 1] && u.children[0] == t.children[0];
      var rest;
      rest, leaf := GroupCanShrink(u);
      MakesInTurn(t, steps, u, rest, leaf);
      steps := steps + rest;
    }
  }

  /** The edits offered, with datasets to choose from, make of a well-formed tree exactly the well-formed trees. */
  lemma ExactlyWellFormedTreesCanBeMade(t: Trigger, target: Trigger)
    requires WellFormed(t, 0)
    ensures (exists steps :: Makes(t, steps, target)) <==> WellFormed(target, 0)
  {
    if steps :| Makes(t, steps, target) {
      EditsKeepWellFormed(t, steps);
    }
    if WellFormed(target, 0) {
      var start: seq<Step>, leaf: Trigger := [], t;
      if t.Group? {
        start, leaf := GroupCanShrink(t);
      }
      var steps := CanBeMade(leaf, [], target);
      MakesInTurn(t, start, leaf, steps, target);
    }
  }
}
