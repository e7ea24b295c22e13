/**
  * `sourceDiff` in web/src/execution-model.ts and the two aligned columns that web/src/SourceLines.tsx
  * builds from it.
  */
module DiffColumns {
  import opened Results
  import L = Lines
  import opened Lexing
  import opened SourceLines

  datatype Change = Same | Removed | Added

  datatype Edit = Edit(kind: Change, text: string)

  /** A displayed line with its number in its own file. */
  datatype Cell = Cell(number: nat, tokens: Line, kind: Change)

  type Column = seq<Option<Cell>>

  // ---------------------------------------------------------------- edit scripts

  /** The lines that the first `n` edits take from the old file. */
  function OldIn(script: seq<Edit>, n: nat): seq<string>
    requires n <= |script|
  {
    if n == 0 then []
    else if script[n - 1].kind.Added? then OldIn(script, n - 1)
    else OldIn(script, n - 1) + [script[n - 1].text]
  }

  /** The lines that the first `n` edits leave in the new file. */
  function NewIn(script: seq<Edit>, n: nat): seq<string>
    requires n <= |script|
  {
    if n == 0 then []
    else if script[n - 1].kind.Removed? then NewIn(script, n - 1)
    else NewIn(script, n - 1) + [script[n - 1].text]
  }

  function Old(script: seq<Edit>): seq<string> {
    OldIn(script, |script|)
  }

  function New(script: seq<Edit>): seq<string> {
    NewIn(script, |script|)
  }

  lemma {:induction false} ScriptPrefix(script: seq<Edit>, longer: seq<Edit>, n: nat)
    requires n <= |script| && script <= longer
    ensures OldIn(longer, n) == OldIn(script, n) && NewIn(longer, n) == NewIn(script, n)
  {
    if n > 0 {
      ScriptPrefix(script, longer, n - 1);
    }
  }

  /** Later edits take and leave later lines. */
  lemma {:induction false} LinesGrow(script: seq<Edit>, m: nat, n: nat)
    requires m <= n <= |script|
    ensures OldIn(script, m) <= OldIn(script, n) && NewIn(script, m) <= NewIn(script, n)
  {
    if m < n {
      LinesGrow(script, m, n - 1);
    }
  }

  /** Appends one edit of a kind for every text. */
  function WithEdits(script: seq<Edit>, kind: Change, texts: seq<string>): (longer: seq<Edit>) {
    if texts == [] then script else WithEdits(script, kind, texts[..|texts| - 1]) + [Edit(kind, texts[|texts| - 1])]
  }

  lemma {:induction false} WithEditsTakesAll(script: seq<Edit>, kind: Change, texts: seq<string>)
    ensures Old(WithEdits(script, kind, texts)) == if kind.Added? then Old(script) else Old(script) + texts
    ensures New(WithEdits(script, kind, texts)) == if kind.Removed? then New(script) else New(script) + texts
  {
    if texts != [] {
      var init, last := texts[..|texts| - 1], texts[|texts| - 1];
      WithEditsTakesAll(script, kind, init);
      var before := WithEdits(script, kind, init);
      ScriptPrefix(before, before + [Edit(kind, last)], |before|);
      assert texts == init + [last];
    }
  }

  /** The last `n` lines are equal. */
  predicate EqualEnds(a: seq<string>, b: seq<string>, n: nat)
    requires n <= |a| && n <= |b|
  {
    n == 0 || (a[|a| - n] == b[|b| - n] && EqualEnds(a, b, n - 1))
  }

  lemma {:induction false} EqualEndsAreEqual(a: seq<string>, b: seq<string>, n: nat)
    requires n <= |a| && n <= |b| && EqualEnds(a, b, n)
    ensures a[|a| - n..] == b[|b| - n..]
  {
    if n > 0 {
      EqualEndsAreEqual(a, b, n - 1);
      assert a[|a| - n..] == [a[|a| - n]] + a[|a| - (n - 1)..];
      assert b[|b| - n..] == [b[|b| - n]] + b[|b| - (n - 1)..];
    }
  }

  /** The number of equal lines at the start, and at the end of what remains. */
  method CommonEnds(a: seq<string>, b: seq<string>) returns (first: nat, last: nat)
    ensures first + last <= |a| && first + last <= |b|
    ensures a[..first] == b[..first] && EqualEnds(a, b, last)
    ensures first < |a| && first < |b| ==> a[first] != b[first]
    ensures first + last < |a| && first + last < |b| ==> a[|a| - last - 1] != b[|b| - last - 1]
  {
    first := 0;
    while first < |a| && first < |b| && a[first] == b[first]
      invariant first <= |a| && first <= |b| && a[..first] == b[..first]
    {
      first := first + 1;
    }
    last := 0;
    while last < |a| - first && last < |b| - first && a[|a| - last - 1] == b[|b| - last - 1]
      invariant last <= |a| - first && last <= |b| - first
      invariant EqualEnds(a, b, last)
    {
      last := last + 1;
    }
  }

  /** The longest common start of two files, and the longest common end of what remains. */
  predicate AreEnds(a: seq<string>, b: seq<string>, first: nat, last: nat) {
    && first + last <= |a| && first + last <= |b|
    && a[..first] == b[..first] && a[|a| - last..] == b[|b| - last..]
    && (first < |a| && first < |b| ==> a[first] != b[first])
    && (first + last < |a| && first + last < |b| ==> a[|a| - last - 1] != b[|b| - last - 1])
  }

  lemma SameInStart(a: seq<string>, b: seq<string>, first: nat, i: nat)
    requires i < first <= |a| && first <= |b| && a[..first] == b[..first]
    ensures a[i] == b[i]
  {
    assert a[i] == a[..first][i];
  }

  lemma SameInEnd(a: seq<string>, b: seq<string>, last: nat, i: nat)
    requires i < last <= |a| && last <= |b| && a[|a| - last..] == b[|b| - last..]
    ensures a[|a| - i - 1] == b[|b| - i - 1]
  {
    assert a[|a| - i - 1] == a[|a| - last..][last - i - 1];
  }

  lemma StartsAgree(a: seq<string>, b: seq<string>, first: nat, last: nat, m: nat, n: nat)
    requires AreEnds(a, b, first, last) && AreEnds(a, b, m, n)
    ensures first <= m
  {
    if m < first {
      SameInStart(a, b, first, m);
    }
  }

  lemma EndsAgree(a: seq<string>, b: seq<string>, first: nat, last: nat, n: nat)
    requires AreEnds(a, b, first, last) && AreEnds(a, b, first, n)
    ensures last <= n
  {
    if n < last {
      SameInEnd(a, b, last, n);
    }
  }

  /** The two files determine what is taken for unchanged; equal files are unchanged throughout. */
  lemma EndsAreUnique(a: seq<string>, b: seq<string>, first: nat, last: nat, m: nat, n: nat)
    requires AreEnds(a, b, first, last) && AreEnds(a, b, m, n)
    ensures first == m && last == n && (a == b ==> first == |a| && last == 0)
  {
    StartsAgree(a, b, first, last, m, n);
    StartsAgree(a, b, m, n, first, last);
    EndsAgree(a, b, first, last, n);
    EndsAgree(a, b, m, n, last);
  }

  function EditsOf(kind: Change, texts: seq<string>): (edits: seq<Edit>) {
    seq(|texts|, i requires 0 <= i < |texts| => Edit(kind, texts[i]))
  }

  /** The common start and end unchanged, and between them all old lines removed and all new ones added. */
  function ScriptOf(a: seq<string>, b: seq<string>, first: nat, last: nat): seq<Edit>
    requires first + last <= |a| && first + last <= |b|
  {
    EditsOf(Same, a[..first]) + EditsOf(Removed, a[first..|a| - last]) + EditsOf(Added, b[first..|b| - last])
    + EditsOf(Same, a[|a| - last..])
  }

  /** The script keeps the longest common start and end, and replaces what is between them. */
  predicate Keeps(script: seq<Edit>, a: seq<string>, b: seq<string>, first: nat, last: nat) {
    AreEnds(a, b, first, last) && script == ScriptOf(a, b, first, last)
  }

  lemma {:induction false} WithEditsAppends(script: seq<Edit>, kind: Change, texts: seq<string>)
    ensures WithEdits(script, kind, texts) == script + EditsOf(kind, texts)
  {
    if texts != [] {
      var init, last := texts[..|texts| - 1], texts[|texts| - 1];
      WithEditsAppends(script, kind, init);
      assert EditsOf(kind, texts) == EditsOf(kind, init) + [Edit(kind, last)];
    }
  }

  /**
    * `sourceDiff`: a script that turns the one text's lines into the other's, and changes nothing in their longest
    * common start and end.
    */
  method SourceDiff(before: string, after: string) returns (script: seq<Edit>)
    ensures Old(script) == L.Split(before) && New(script) == L.Split(after)
    ensures exists first, last :: Keeps(script, L.Split(before), L.Split(after), first, last)
  {
    var a, b := L.Split(before), L.Split(after);
    var first, last := CommonEnds(a, b);
    EqualEndsAreEqual(a, b, last);
    var removed, added := a[first..|a| - last], b[first..|b| - last];
    script := WithEdits(WithEdits(WithEdits(WithEdits([], Same, a[..first]), Removed, removed), Added, added), Same,
                        a[|a| - last..]);
    ScriptTakesAll(a, b, first, last);
    BuiltAsScript(a, b, first, last);
    assert Keeps(script, a, b, first, last);
  }

  lemma FourAppended(w: seq<string>, x: seq<string>, y: seq<string>, z: seq<string>)
    ensures WithEdits(WithEdits(WithEdits(WithEdits([], Same, w), Removed, x), Added, y), Same, z) ==
            EditsOf(Same, w) + EditsOf(Removed, x) + EditsOf(Added, y) + EditsOf(Same, z)
  {
    var s1 := WithEdits([], Same, w);
    WithEditsAppends([], Same, w);
    assert s1 == EditsOf(Same, w);
    var s2 := WithEdits(s1, Removed, x);
    WithEditsAppends(s1, Removed, x);
    WithEditsAppends(s2, Added, y);
    WithEditsAppends(WithEdits(s2, Added, y), Same, z);
  }

  lemma BuiltAsScript(a: seq<string>, b: seq<string>, first: nat, last: nat)
    requires first + last <= |a| && first + last <= |b|
    ensures WithEdits(WithEdits(WithEdits(WithEdits([], Same, a[..first]), Removed, a[first..|a| - last]), Added,
                                b[first..|b| - last]), Same, a[|a| - last..]) == ScriptOf(a, b, first, last)
  {
    FourAppended(a[..first], a[first..|a| - last], b[first..|b| - last], a[|a| - last..]);
  }

  lemma ScriptTakesAll(a: seq<string>, b: seq<string>, first: nat, last: nat)
    requires first + last <= |a| && first + last <= |b|
    requires a[..first] == b[..first] && a[|a| - last..] == b[|b| - last..]
    ensures var script := WithEdits(WithEdits(WithEdits(WithEdits([], Same, a[..first]), Removed,
                                    a[first..|a| - last]), Added, b[first..|b| - last]), Same, a[|a| - last..]);
            Old(script) == a && New(script) == b
  {
    var s1 := WithEdits([], Same, a[..first]);
    WithEditsTakesAll([], Same, a[..first]);
    var s2 := WithEdits(s1, Removed, a[first..|a| - last]);
    WithEditsTakesAll(s1, Removed, a[first..|a| - last]);
    var s3 := WithEdits(s2, Added, b[first..|b| - last]);
    WithEditsTakesAll(s2, Added, b[first..|b| - last]);
    WithEditsTakesAll(s3, Same, a[|a| - last..]);
    ThreeParts(a, first, last);
    ThreeParts(b, first, last);
  }

  lemma ThreeParts(a: seq<string>, first: nat, last: nat)
    requires first + last <= |a|
    ensures [] + a[..first] + a[first..|a| - last] + a[|a| - last..] == a
  {
  }

  // ---------------------------------------------------------------- columns

  /** The defined entries of a column, in order. */
  function Present(column: Column): seq<Cell> {
    if column == [] then [] else
      var c := column[|column| - 1];
      Present(column[..|column| - 1]) + (if c.Some? then [c.value] else [])
  }

  function TokensAt(lines: seq<Line>, i: nat): Line {
    if i < |lines| then lines[i] else []
  }

  /** The old lines of the first `n` edits as cells: numbered from 1, in order, each with its own tokens. */
  function OldCells(script: seq<Edit>, n: nat, before: seq<Line>): seq<Cell>
    requires n <= |script|
  {
    if n == 0 then [] else
      var e, cells := script[n - 1], OldCells(script, n - 1, before);
      if e.kind.Added? then cells else cells + [Cell(|cells| + 1, TokensAt(before, |cells|), e.kind)]
  }

  function NewCells(script: seq<Edit>, n: nat, after: seq<Line>): seq<Cell>
    requires n <= |script|
  {
    if n == 0 then [] else
      var e, cells := script[n - 1], NewCells(script, n - 1, after);
      if e.kind.Removed? then cells else cells + [Cell(|cells| + 1, TokensAt(after, |cells|), e.kind)]
  }

  /** The left cells number the old lines 1 to n. */
  lemma {:induction false} OldCellsAreNumbered(script: seq<Edit>, n: nat, before: seq<Line>)
    requires n <= |script|
    ensures var cells := OldCells(script, n, before);
            |cells| == |OldIn(script, n)| &&
            forall k :: 0 <= k < |cells| ==> cells[k].number == k + 1 && cells[k].tokens == TokensAt(before, k)
  {
    if n > 0 {
      OldCellsAreNumbered(script, n - 1, before);
    }
  }

  /** The right cells number the new lines 1 to m. */
  lemma {:induction false} NewCellsAreNumbered(script: seq<Edit>, n: nat, after: seq<Line>)
    requires n <= |script|
    ensures var cells := NewCells(script, n, after);
            |cells| == |NewIn(script, n)| &&
            forall k :: 0 <= k < |cells| ==> cells[k].number == k + 1 && cells[k].tokens == TokensAt(after, k)
  {
    if n > 0 {
      NewCellsAreNumbered(script, n - 1, after);
    }
  }

  /** The cells of the first `first` and the last `last` of `length` lines are unchanged, the others of `kind`. */
  predicate MarkedBetween(cells: seq<Cell>, kind: Change, length: nat, first: nat, last: nat) {
    forall k :: 0 <= k < |cells| ==> cells[k].kind == if k < first || length - last <= k then Same else kind
  }

  lemma {:induction false} OldCellsAreMarked(
    a: seq<string>, b: seq<string>, first: nat, last: nat, n: nat, before: seq<Line>)
    requires first + last <= |a| && first + last <= |b| && n <= |ScriptOf(a, b, first, last)|
    ensures var cells := OldCells(ScriptOf(a, b, first, last), n, before);
      && |cells| == (if n <= |a| - last then n else if n <= |a| + |b| - first - 2 * last then |a| - last
                     else n - (|b| - first - last))
      && MarkedBetween(cells, Removed, |a|, first, last)
  {
    if n > 0 {
      OldCellsAreMarked(a, b, first, last, n - 1, before);
    }
  }

  lemma {:induction false} NewCellsAreMarked(
    a: seq<string>, b: seq<string>, first: nat, last: nat, n: nat, after: seq<Line>)
    requires first + last <= |a| && first + last <= |b| && n <= |ScriptOf(a, b, first, last)|
    ensures var cells := NewCells(ScriptOf(a, b, first, last), n, after);
      && |cells| == (if n <= first then n else if n <= |a| - last then first else n - (|a| - first - last))
      && MarkedBetween(cells, Added, |b|, first, last)
  {
    if n > 0 {
      NewCellsAreMarked(a, b, first, last, n - 1, after);
    }
  }

  /** A row: not empty on both sides; an unchanged line on one side has its equal on the other. */
  predicate RowFits(left: Option<Cell>, right: Option<Cell>, a: seq<string>, b: seq<string>) {
    && (left.Some? || right.Some?)
    && (left.Some? ==> 1 <= left.value.number <= |a| && !left.value.kind.Added?)
    && (right.Some? ==> 1 <= right.value.number <= |b| && !right.value.kind.Removed?)
    && (left.Some? && left.value.kind.Same? <==> right.Some? && right.value.kind.Same?)
    && (left.Some? && left.value.kind.Same? ==> a[left.value.number - 1] == b[right.value.number - 1])
  }

  predicate RowsFit(left: Column, right: Column, a: seq<string>, b: seq<string>) {
    |left| == |right| && forall i :: 0 <= i < |left| ==> RowFits(left[i], right[i], a, b)
  }

  /** Lines waiting to be placed: all of one kind, numbered within their file. */
  predicate Waiting(cells: seq<Cell>, kind: Change, length: nat) {
    forall i :: 0 <= i < |cells| ==> cells[i].kind == kind && 1 <= cells[i].number <= length
  }

  lemma PresentOneMore(column: Column, c: Option<Cell>)
    ensures Present(column + [c]) == Present(column) + (if c.Some? then [c.value] else [])
  {
    assert (column + [c])[..|column|] == column;
  }

  function CellAt(cells: seq<Cell>, i: nat): Option<Cell> {
    if i < |cells| then Some(cells[i]) else None
  }

  /** The first `i` cells, or all of them. */
  function Taken(cells: seq<Cell>, i: nat): seq<Cell> {
    if i <= |cells| then cells[..i] else cells
  }

  function Max(i: nat, j: nat): nat {
    if i < j then j else i
  }

  /** The column grew by `rows` rows, with the waiting cells from the top and nothing after them. */
  predicate SharesRows(column: Column, longer: Column, cells: seq<Cell>, rows: nat) {
    && |longer| == |column| + rows && column <= longer
    && forall i :: 0 <= i < rows ==> longer[|column| + i] == CellAt(cells, i)
  }

  /** The column with the first `n` cells, or empty places, below it. */
  function Grown(column: Column, cells: seq<Cell>, n: nat): Column {
    if n == 0 then column else Grown(column, cells, n - 1) + [CellAt(cells, n - 1)]
  }

  lemma {:induction false} GrownSharesRows(column: Column, cells: seq<Cell>, n: nat)
    ensures SharesRows(column, Grown(column, cells, n), cells, n)
  {
    if n > 0 {
      GrownSharesRows(column, cells, n - 1);
    }
  }

  lemma TakenOneMore(cells: seq<Cell>, n: nat)
    ensures Taken(cells, n + 1) == Taken(cells, n) + (if CellAt(cells, n).Some? then [CellAt(cells, n).value] else [])
  {
    if n < |cells| {
      assert cells[..n + 1] == cells[..n] + [cells[n]];
    }
  }

  lemma SplitPresent(column: Column, start: seq<Cell>, taken: seq<Cell>, c: Option<Cell>)
    requires Present(column) == start + taken
    ensures Present(column + [c]) == start + (taken + (if c.Some? then [c.value] else []))
  {
    PresentOneMore(column, c);
  }

  lemma {:induction false} GrownPresent(column: Column, cells: seq<Cell>, n: nat)
    ensures Present(Grown(column, cells, n)) == Present(column) + Taken(cells, n)
  {
    if n > 0 {
      GrownPresent(column, cells, n - 1);
      SplitPresent(Grown(column, cells, n - 1), Present(column), Taken(cells, n - 1), CellAt(cells, n - 1));
      TakenOneMore(cells, n - 1);
    }
  }

  lemma {:induction false} GrownFits(
    left: Column, right: Column, removed: seq<Cell>, added: seq<Cell>, n: nat, a: seq<string>, b: seq<string>)
    requires RowsFit(left, right, a, b) && Waiting(removed, Removed, |a|) && Waiting(added, Added, |b|)
    requires n <= Max(|removed|, |added|)
    ensures RowsFit(Grown(left, removed, n), Grown(right, added, n), a, b)
  {
    if n > 0 {
      GrownFits(left, right, removed, added, n - 1, a, b);
    }
  }

  /** `flush`: waiting removed and added lines share rows from the top. */
  method Flush(left: Column, right: Column, removed: seq<Cell>, added: seq<Cell>,
               ghost a: seq<string>, ghost b: seq<string>)
    returns (longerLeft: Column, longerRight: Column)
    requires RowsFit(left, right, a, b) && Waiting(removed, Removed, |a|) && Waiting(added, Added, |b|)
    ensures RowsFit(longerLeft, longerRight, a, b)
    ensures Present(longerLeft) == Present(left) + removed && Present(longerRight) == Present(right) + added
    ensures SharesRows(left, longerLeft, removed, Max(|removed|, |added|))
    ensures SharesRows(right, longerRight, added, Max(|removed|, |added|))
  {
    longerLeft, longerRight := left, right;
    var rows := Max(|removed|, |added|);
    for i := 0 to rows
      invariant longerLeft == Grown(left, removed, i) && longerRight == Grown(right, added, i)
    {
      longerLeft := longerLeft + [CellAt(removed, i)];
      longerRight := longerRight + [CellAt(added, i)];
    }
    GrownPresent(left, removed, rows);
    GrownPresent(right, added, rows);
    GrownSharesRows(left, removed, rows);
    GrownSharesRows(right, added, rows);
    GrownFits(left, right, removed, added, rows, a, b);
  }

  /** Where edit `n` of a script stands in both files, and the cells it makes. */
  lemma NextEdit(script: seq<Edit>, n: nat, before: seq<Line>, after: seq<Line>)
    requires n < |script|
    ensures var i, j := |OldCells(script, n, before)|, |NewCells(script, n, after)|;
            && (!script[n].kind.Added? ==> i < |Old(script)| && Old(script)[i] == script[n].text)
            && (!script[n].kind.Removed? ==> j < |New(script)| && New(script)[j] == script[n].text)
  {
    OldCellsAreNumbered(script, n, before);
    NewCellsAreNumbered(script, n, after);
    LinesGrow(script, n + 1, |script|);
    assert OldIn(script, n + 1) <= Old(script) && NewIn(script, n + 1) <= New(script);
  }

  /** Rows placed, and removed and added lines waiting, after the first `n` edits. */
  datatype Tally = Tally(rows: nat, removed: nat, added: nat)

  function TallyOf(script: seq<Edit>, n: nat): Tally
    requires n <= |script|
  {
    if n == 0 then Tally(0, 0, 0) else
      var t := TallyOf(script, n - 1);
      match script[n - 1].kind
      case Same => Tally(t.rows + Max(t.removed, t.added) + 1, 0, 0)
      case Removed => t.(removed := t.removed + 1)
      case Added => t.(added := t.added + 1)
  }

  /** One row for each unchanged line, and for each change between two as many as its longer side has lines. */
  function RowCount(script: seq<Edit>): nat {
    var t := TallyOf(script, |script|);
    t.rows + Max(t.removed, t.added)
  }

  /** The columns and the waiting lines hold the cells of the first `n` edits. */
  ghost predicate HoldFirst(script: seq<Edit>, n: nat, before: seq<Line>, after: seq<Line>,
                            left: Column, right: Column, removed: seq<Cell>, added: seq<Cell>)
    requires n <= |script|
  {
    && RowsFit(left, right, Old(script), New(script))
    && Waiting(removed, Removed, |Old(script)|) && Waiting(added, Added, |New(script)|)
    && Present(left) + removed == OldCells(script, n, before)
    && Present(right) + added == NewCells(script, n, after)
    && TallyOf(script, n) == Tally(|left|, |removed|, |added|)
  }

  lemma SameRowFits(script: seq<Edit>, n: nat, before: seq<Line>, after: seq<Line>,
                    l: Column, r: Column, onLeft: Cell, onRight: Cell)
    requires n < |script| && script[n].kind.Same? && RowsFit(l, r, Old(script), New(script))
    requires Present(l) == OldCells(script, n, before) && Present(r) == NewCells(script, n, after)
    requires onLeft == Cell(|Present(l)| + 1, TokensAt(before, |Present(l)|), Same)
    requires onRight == Cell(|Present(r)| + 1, TokensAt(after, |Present(r)|), Same)
    ensures RowsFit(l + [Some(onLeft)], r + [Some(onRight)], Old(script), New(script))
    ensures Present(l + [Some(onLeft)]) == OldCells(script, n + 1, before)
    ensures Present(r + [Some(onRight)]) == NewCells(script, n + 1, after)
  {
    NextEdit(script, n, before, after);
    PresentOneMore(l, Some(onLeft));
    PresentOneMore(r, Some(onRight));
    assert RowFits(Some(onLeft), Some(onRight), Old(script), New(script));
  }

  /** An unchanged line gets a row of its own after the waiting ones. */
  method PlaceSame(script: seq<Edit>, n: nat, before: seq<Line>, after: seq<Line>, oldIndex: nat, newIndex: nat,
                   left: Column, right: Column, removed: seq<Cell>, added: seq<Cell>)
    returns (left': Column, right': Column)
    requires n < |script| && script[n].kind.Same?
    requires HoldFirst(script, n, before, after, left, right, removed, added)
    requires oldIndex == |OldCells(script, n, before)| && newIndex == |NewCells(script, n, after)|
    ensures RowsFit(left', right', Old(script), New(script))
    ensures Present(left') == OldCells(script, n + 1, before) && Present(right') == NewCells(script, n + 1, after)
    ensures |left'| == |left| + Max(|removed|, |added|) + 1
  {
    var l, r := Flush(left, right, removed, added, Old(script), New(script));
    var onLeft := Cell(oldIndex + 1, TokensAt(before, oldIndex), script[n].kind);
    var onRight := Cell(newIndex + 1, TokensAt(after, newIndex), script[n].kind);
    SameRowFits(script, n, before, after, l, r, onLeft, onRight);
    left', right' := l + [Some(onLeft)], r + [Some(onRight)];
  }

  lemma RemovedWaits(script: seq<Edit>, n: nat, before: seq<Line>, after: seq<Line>,
                     left: Column, right: Column, removed: seq<Cell>, added: seq<Cell>, c: Cell)
    requires n < |script| && script[n].kind.Removed?
    requires HoldFirst(script, n, before, after, left, right, removed, added)
    requires var i := |OldCells(script, n, before)|; c == Cell(i + 1, TokensAt(before, i), Removed)
    ensures HoldFirst(script, n + 1, before, after, left, right, removed + [c], added)
  {
    NextEdit(script, n, before, after);
    assert Present(left) + (removed + [c]) == (Present(left) + removed) + [c];
  }

  lemma AddedWaits(script: seq<Edit>, n: nat, before: seq<Line>, after: seq<Line>,
                   left: Column, right: Column, removed: seq<Cell>, added: seq<Cell>, c: Cell)
    requires n < |script| && script[n].kind.Added?
    requires HoldFirst(script, n, before, after, left, right, removed, added)
    requires var j := |NewCells(script, n, after)|; c == Cell(j + 1, TokensAt(after, j), Added)
    ensures HoldFirst(script, n + 1, before, after, left, right, removed, added + [c])
  {
    NextEdit(script, n, before, after);
    assert Present(right) + (added + [c]) == (Present(right) + added) + [c];
  }

  /** One edit: an unchanged line is placed, others wait. */
  method Place(script: seq<Edit>, n: nat, before: seq<Line>, after: seq<Line>, oldIndex: nat, newIndex: nat,
               left: Column, right: Column, removed: seq<Cell>, added: seq<Cell>)
    returns (left': Column, right': Column, removed': seq<Cell>, added': seq<Cell>)
    requires n < |script| && HoldFirst(script, n, before, after, left, right, removed, added)
    requires oldIndex == |OldCells(script, n, before)| && newIndex == |NewCells(script, n, after)|
    ensures HoldFirst(script, n + 1, before, after, left', right', removed', added')
  {
    left', right', removed', added' := left, right, removed, added;
    var kind := script[n].kind;
    match kind
    case Same =>
      left', right' := PlaceSame(script, n, before, after, oldIndex, newIndex, left, right, removed, added);
      removed', added' := [], [];
    case Removed =>
      var c := Cell(oldIndex + 1, TokensAt(before, oldIndex), kind);
      RemovedWaits(script, n, before, after, left, right, removed, added, c);
      removed' := removed + [c];
    case Added =>
      var c := Cell(newIndex + 1, TokensAt(after, newIndex), kind);
      AddedWaits(script, n, before, after, left, right, removed, added, c);
      added' := added + [c];
  }

  /**
    * The columns of a diff: both as long as each other, every old line once and in order on the left,
    * every new line once and in order on the right, unchanged lines side by side.
    */
  method Columns(script: seq<Edit>, before: seq<Line>, after: seq<Line>) returns (left: Column, right: Column)
    ensures RowsFit(left, right, Old(script), New(script)) && |left| == RowCount(script)
    ensures Present(left) == OldCells(script, |script|, before) && Present(right) == NewCells(script, |script|, after)
  {
    left, right := [], [];
    var oldIndex, newIndex := 0, 0;
    var removed, added := [], [];
    for n := 0 to |script|
      invariant HoldFirst(script, n, before, after, left, right, removed, added)
      invariant oldIndex == |OldCells(script, n, before)| && newIndex == |NewCells(script, n, after)|
    {
      left, right, removed, added := Place(script, n, before, after, oldIndex, newIndex, left, right, removed, added);
      if !script[n].kind.Added? {
        oldIndex := oldIndex + 1;
      }
      if !script[n].kind.Removed? {
        newIndex := newIndex + 1;
      }
    }
    left, right := Flush(left, right, removed, added, Old(script), New(script));
  }

  /** The text a cell shows. */
  function Shows(c: Cell): string {
    LineText(c.tokens)
  }

  /** The cells show the file's lines, all of them and in order. */
  predicate ShowsFile(cells: seq<Cell>, file: seq<string>) {
    |cells| == |file| && forall k :: 0 <= k < |cells| ==> cells[k].number == k + 1 && Shows(cells[k]) == file[k]
  }

  lemma CellsShowFile(cells: seq<Cell>, lines: seq<Line>, file: seq<string>)
    requires |cells| == |file| && LineTexts(lines) == file
    requires forall k :: 0 <= k < |cells| ==> cells[k].number == k + 1 && cells[k].tokens == TokensAt(lines, k)
    ensures ShowsFile(cells, file)
  {
    assert |lines| == |file|;
    forall k | 0 <= k < |cells| ensures Shows(cells[k]) == file[k] {
      assert LineTexts(lines)[k] == LineText(lines[k]);
    }
  }

  /** What the view marks as unchanged are the longest common start and end of the two files. */
  predicate MarksChanges(left: Column, right: Column, a: seq<string>, b: seq<string>, first: nat, last: nat) {
    && AreEnds(a, b, first, last)
    && MarkedBetween(Present(left), Removed, |a|, first, last)
    && MarkedBetween(Present(right), Added, |b|, first, last)
  }

  lemma ChangesAreMarked(script: seq<Edit>, a: seq<string>, b: seq<string>, before: seq<Line>, after: seq<Line>,
                         left: Column, right: Column)
    requires exists first, last :: Keeps(script, a, b, first, last)
    requires Present(left) == OldCells(script, |script|, before) && Present(right) == NewCells(script, |script|, after)
    ensures exists first, last :: MarksChanges(left, right, a, b, first, last)
  {
    var first, last :| Keeps(script, a, b, first, last);
    OldCellsAreMarked(a, b, first, last, |script|, before);
    NewCellsAreMarked(a, b, first, last, |script|, after);
    assert MarksChanges(left, right, a, b, first, last);
  }

  /** Of equal files nothing is marked as changed. */
  lemma EqualFilesAreUnmarked(left: Column, right: Column, a: seq<string>, first: nat, last: nat)
    requires MarksChanges(left, right, a, a, first, last) && |Present(left)| == |Present(right)| == |a|
    ensures forall c :: c in Present(left) || c in Present(right) ==> c.kind.Same?
  {
    EndsAreUnique(a, a, first, last, first, last);
  }

  /**
    * The whole view of two texts: each column shows its own file's lines, complete and in order, and marks as changed
    * what lies between the longest common start and end.
    */
  method DiffView(
    before: string, beforePath: string, after: string, afterPath: string)
    returns (left: Column, right: Column)
    ensures RowsFit(left, right, L.Split(before), L.Split(after))
    ensures ShowsFile(Present(left), L.Split(before)) && ShowsFile(Present(right), L.Split(after))
    ensures exists first, last :: MarksChanges(left, right, L.Split(before), L.Split(after), first, last)
  {
    var beforeLines := SourceTokens(before, beforePath);
    var afterLines := SourceTokens(after, afterPath);
    var script := SourceDiff(before, after);
    left, right := Columns(script, beforeLines, afterLines);
    OldCellsAreNumbered(script, |script|, beforeLines);
    NewCellsAreNumbered(script, |script|, afterLines);
    CellsShowFile(Present(left), beforeLines, L.Split(before));
    CellsShowFile(Present(right), afterLines, L.Split(after));
    ChangesAreMarked(script, L.Split(before), L.Split(after), beforeLines, afterLines, left, right);
  }
}
