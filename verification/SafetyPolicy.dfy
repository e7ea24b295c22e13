/**
  * The dependency gate: `check_advisories` and `apply_exceptions` in tools/safety/baseline.py, composed
  * with the advisory query as tools/safety/check.py composes them. Days are integers.
  */
module SafetyPolicy {
  import opened Characters
  import opened Results
  import Text
  import opened PackageInventory
  import opened AdvisoryAudit

  // ---------------------------------------------------------------- the advisory report

  /** A report; `inventory` stands for the digest that binds it to one inventory. */
  datatype Report = Report(supported: bool, checkedOn: int, inventory: seq<Package>,
                           queried: seq<string>, findings: seq<Row>)

  datatype Row = Row(package: string, advisory: string) | BadRow

  datatype GateError = Unsupported | OtherInventory | StaleReport | PartialCoverage | MalformedFinding

  const FRESH_DAYS := 7

  predicate AdvisoryChar(c: char) {
    WordChar(c) || c == '.' || c == '-'
  }

  predicate ValidAdvisory(a: string) {
    a != "" && forall i :: 0 <= i < |a| ==> AdvisoryChar(a[i])
  }

  function AdvisoryKey(advisory: string, package: string): string {
    "advisory:" + advisory + ":" + package
  }

  function DeprecationKey(package: string): string {
    "deprecated:" + package
  }

  predicate AcceptableFinding(f: Row, ids: seq<string>) {
    f.Row? && f.package in ids && ValidAdvisory(f.advisory)
  }

  predicate Fresh(checkedOn: int, today: int) {
    0 <= today - checkedOn <= FRESH_DAYS
  }

  predicate AcceptableReport(r: Report, dependencies: seq<Package>, today: int) {
    && r.supported && r.inventory == dependencies && Fresh(r.checkedOn, today)
    && r.queried == IdsOf(dependencies)
    && forall i :: 0 <= i < |r.findings| ==> AcceptableFinding(r.findings[i], IdsOf(dependencies))
  }

  function KeysOf(findings: seq<Row>): set<string> {
    set f | f in findings && f.Row? :: AdvisoryKey(f.advisory, f.package)
  }

  method CheckAdvisories(data: Report, dependencies: seq<Package>, today: int)
    returns (r: Result<set<string>, GateError>)
    ensures r.Ok? <==> AcceptableReport(data, dependencies, today)
    ensures r.Ok? ==> r.value == KeysOf(data.findings)
  {
    if !data.supported { return Err(Unsupported); }
    if data.inventory != dependencies { return Err(OtherInventory); }
    var age := today - data.checkedOn;
    if !(0 <= age <= FRESH_DAYS) { return Err(StaleReport); }
    var ids := IdsOf(dependencies);
    if data.queried != ids { return Err(PartialCoverage); }
    var findings := {};
    for i := 0 to |data.findings|
      invariant forall k :: 0 <= k < i ==> AcceptableFinding(data.findings[k], ids)
      invariant findings == KeysOf(data.findings[..i])
    {
      var f := data.findings[i];
      if !AcceptableFinding(f, ids) { return Err(MalformedFinding); }
      assert data.findings[..i + 1] == data.findings[..i] + [f];
      findings := findings + {AdvisoryKey(f.advisory, f.package)};
    }
    assert data.findings[..|data.findings|] == data.findings;
    return Ok(findings);
  }

  /** An advisory identifier holds no colon, so a finding's key determines the advisory and the package. */
  lemma AdvisoryKeysAreInjective(a: string, p: string, b: string, q: string)
    requires ValidAdvisory(a) && ValidAdvisory(b)
    ensures AdvisoryKey(a, p) == AdvisoryKey(b, q) ==> a == b && p == q
  {
    if AdvisoryKey(a, p) == AdvisoryKey(b, q) {
      TailsAgree(a, p, b, q);
      ColonSplits(a, p, b, q);
    }
  }

  lemma TailsAgree(a: string, p: string, b: string, q: string)
    requires AdvisoryKey(a, p) == AdvisoryKey(b, q)
    ensures a + ":" + p == b + ":" + q
  {
    assert AdvisoryKey(a, p)[|"advisory:"|..] == a + ":" + p;
    assert AdvisoryKey(b, q)[|"advisory:"|..] == b + ":" + q;
  }

  lemma {:induction false} ColonSplits(a: string, p: string, b: string, q: string)
    requires (forall i :: 0 <= i < |a| ==> AdvisoryChar(a[i])) && (forall i :: 0 <= i < |b| ==> AdvisoryChar(b[i]))
    requires a + ":" + p == b + ":" + q
    ensures a == b && p == q
  {
    var s, t := a + ":" + p, b + ":" + q;
    assert s[|a|] == ':' && t[|b|] == ':';
    assert |a| == |b|;
    assert s[..|a|] == a && t[..|b|] == b;
    assert s[|a| + 1..] == p && t[|b| + 1..] == q;
  }

  lemma KeyKindsDiffer(a: string, p: string, q: string)
    ensures AdvisoryKey(a, p) != DeprecationKey(q)
  {
    assert AdvisoryKey(a, p)[0] == 'a' && DeprecationKey(q)[0] == 'd';
  }

  // ---------------------------------------------------------------- exceptions

  /** An entry of the policy with its four fields; `expires` is absent when it is not a date. */
  datatype Item = Item(finding: string, owner: string, reason: string, expires: Option<int>) | BadItem

  datatype PolicyError = BadFields | Inexact | DuplicateOrUnused | NeedsOwnerAndReason | Expired

  function Strip(s: string): (t: string)
    ensures |t| <= |s|
  {
    if s == "" then "" else if Blank(s[0]) then Strip(s[1..]) else if Blank(s[|s| - 1]) then Strip(s[..|s| - 1]) else s
  }

  /** Characters `a` up to `b` of `s` are left when the blanks around them are removed. */
  ghost predicate TrimmedTo(s: string, a: nat, b: nat) {
    a <= b <= |s| && (forall i :: 0 <= i < a || b <= i < |s| ==> Blank(s[i])) &&
    (a < b ==> !Blank(s[a]) && !Blank(s[b - 1]))
  }

  lemma TrimmedBehindBlank(s: string, a: nat, b: nat)
    requires s != "" && Blank(s[0]) && TrimmedTo(s[1..], a, b)
    ensures TrimmedTo(s, a + 1, b + 1) && s[1..][a..b] == s[a + 1..b + 1]
  {
    forall i | 0 < i < a + 1 || b + 1 <= i < |s| ensures Blank(s[i]) {
      assert s[i] == s[1..][i - 1];
    }
  }

  lemma TrimmedBeforeBlank(s: string, a: nat, b: nat)
    requires s != "" && Blank(s[|s| - 1]) && TrimmedTo(s[..|s| - 1], a, b)
    ensures TrimmedTo(s, a, b) && s[..|s| - 1][a..b] == s[a..b]
  {
    forall i | 0 <= i < a || b <= i < |s| - 1 ensures Blank(s[i]) {
      assert s[i] == s[..|s| - 1][i];
    }
  }

  /** Stripping removes blanks at both ends and nothing else. */
  lemma {:induction false} StripTrims(s: string) returns (a: nat, b: nat)
    ensures TrimmedTo(s, a, b) && Strip(s) == s[a..b]
  {
    if s == "" {
      a, b := 0, 0;
    } else if Blank(s[0]) {
      a, b := StripTrims(s[1..]);
      TrimmedBehindBlank(s, a, b);
      a, b := a + 1, b + 1;
    } else if Blank(s[|s| - 1]) {
      a, b := StripTrims(s[..|s| - 1]);
      TrimmedBeforeBlank(s, a, b);
    } else {
      a, b := 0, |s|;
    }
  }

  predicate ExactKey(key: string) {
    ("deprecated:npm:" <= key || "advisory:" <= key) && '*' !in key
  }

  predicate Justified(owner: string, reason: string) {
    Strip(owner) != "" && |Strip(reason)| >= 20
  }

  /** An exception that could be accepted on `today`, apart from being a duplicate. */
  predicate Usable(item: Item, findings: set<string>, today: int) {
    && item.Item? && ExactKey(item.finding) && item.finding in findings && Justified(item.owner, item.reason)
    && item.expires.Some? && item.expires.value > today
  }

  predicate Admissible(items: seq<Item>, findings: set<string>, today: int) {
    && (forall i :: 0 <= i < |items| ==> Usable(items[i], findings, today))
    && (forall i, j :: 0 <= i < j < |items| ==> items[i].finding != items[j].finding)
  }

  function Excepted(items: seq<Item>): set<string> {
    set item | item in items && item.Item? :: item.finding
  }

  method ApplyExceptions(findings: set<string>, items: seq<Item>, today: int)
    returns (r: Result<seq<string>, PolicyError>)
    ensures r.Ok? <==> Admissible(items, findings, today)
    ensures r.Ok? ==> r.value == Text.Sorted(findings - Excepted(items))
  {
    var accepted := {};
    for i := 0 to |items|
      invariant Admissible(items[..i], findings, today)
      invariant accepted == Excepted(items[..i])
    {
      var item := items[i];
      assert items[..i + 1] == items[..i] + [item];
      if item.BadItem? { return Err(BadFields); }
      var key := item.finding;
      if !ExactKey(key) { return Err(Inexact); }
      if key in accepted || key !in findings {
        if key in accepted {
          var j :| 0 <= j < i && items[j].Item? && items[j].finding == key;
        }
        return Err(DuplicateOrUnused);
      }
      if !Justified(item.owner, item.reason) { return Err(NeedsOwnerAndReason); }
      if !(item.expires.Some? && item.expires.value > today) { return Err(Expired); }
      assert forall j :: 0 <= j < i ==> items[j] in items[..i] && items[j].finding != key;
      accepted := accepted + {key};
    }
    assert items[..|items|] == items;
    return Ok(Text.Sorted(findings - accepted));
  }

  /** The usable exceptions name every finding exactly once. */
  ghost predicate OneToOne(items: seq<Item>, findings: set<string>, today: int) {
    && (forall i :: 0 <= i < |items| ==> Usable(items[i], findings, today))
    && (forall i, j :: 0 <= i < j < |items| ==> items[i].finding != items[j].finding)
    && (forall f :: f in findings ==> exists i :: 0 <= i < |items| && items[i].Item? && items[i].finding == f)
  }

  /** Nothing remains exactly when the unexpired exceptions match the findings one to one. */
  lemma NothingRemainsIffOneToOne(items: seq<Item>, findings: set<string>, today: int)
    ensures OneToOne(items, findings, today) <==>
            Admissible(items, findings, today) && Text.Sorted(findings - Excepted(items)) == []
  {
    var rest := findings - Excepted(items);
    assert Text.Elements(Text.Sorted(rest)) == rest;
    if OneToOne(items, findings, today) {
      forall f | f in findings ensures f in Excepted(items) {
        var i :| 0 <= i < |items| && items[i].Item? && items[i].finding == f;
        assert items[i] in items;
      }
      assert rest == {};
    }
    if Admissible(items, findings, today) && Text.Sorted(rest) == [] {
      assert Text.Elements([]) == rest;
      forall f | f in findings ensures exists i :: 0 <= i < |items| && items[i].Item? && items[i].finding == f {
        assert f !in rest && f in Excepted(items);
      }
    }
  }

  // ---------------------------------------------------------------- the gate

  function Deprecated(dependencies: seq<Package>): set<string> {
    set p | p in dependencies && p.deprecations != [] :: DeprecationKey(p.id)
  }

  lemma DeprecationKeysAreInjective(a: string, b: string)
    ensures DeprecationKey(a) == DeprecationKey(b) ==> a == b
  {
    assert DeprecationKey(a)[|"deprecated:"|..] == a && DeprecationKey(b)[|"deprecated:"|..] == b;
  }

  /** A deprecation is reported of an identifier exactly if some package with that identifier has one. */
  lemma DeprecatedIsExact(dependencies: seq<Package>, id: string)
    ensures DeprecationKey(id) in Deprecated(dependencies) <==>
      exists p :: p in dependencies && p.id == id && p.deprecations != []
  {
    if DeprecationKey(id) in Deprecated(dependencies) {
      var p :| p in dependencies && p.deprecations != [] && DeprecationKey(p.id) == DeprecationKey(id);
      DeprecationKeysAreInjective(p.id, id);
    }
  }

  /** Only an npm deprecation, of a package without an asterisk in its identifier, can be excepted. */
  lemma DeprecationIsExactKeyIff(id: string)
    ensures ExactKey(DeprecationKey(id)) <==> "npm:" <= id && '*' !in id
  {
    var key := DeprecationKey(id);
    assert key[|"deprecated:"|..] == id && key[0] == 'd' && "deprecated:npm:" == "deprecated:" + "npm:";
    if "deprecated:npm:" <= key {
      assert id[..|"npm:"|] == key[|"deprecated:"|..|"deprecated:npm:"|] == "npm:";
    }
    if "npm:" <= id {
      assert key[..|"deprecated:npm:"|] == "deprecated:" + id[..|"npm:"|];
    }
    if '*' in id {
      var i :| 0 <= i < |id| && id[i] == '*';
      assert key[|"deprecated:"| + i] == '*';
    }
  }

  /** An advisory of plain identifier can be excepted exactly if the package's identifier holds no asterisk. */
  lemma AdvisoryIsExactKeyIff(advisory: string, package: string)
    requires ValidAdvisory(advisory)
    ensures ExactKey(AdvisoryKey(advisory, package)) <==> '*' !in package
  {
    var key := AdvisoryKey(advisory, package);
    var start := |"advisory:"| + |advisory| + 1;
    assert key[start..] == package && key[..|"advisory:"|] == "advisory:";
    if '*' in package {
      var i :| 0 <= i < |package| && package[i] == '*';
      assert key[start + i] == '*';
    }
  }

  const OWNER := "owner"
  const REASON := "accepted for a reason"

  lemma OwnerIsJustified()
    ensures Justified(OWNER, REASON)
  {
    assert Strip(OWNER) == OWNER && Strip(REASON) == REASON;
  }

  function ExceptionsFor(keys: seq<string>, owner: string, reason: string, today: int): (items: seq<Item>) {
    seq(|keys|, i requires 0 <= i < |keys| => Item(keys[i], owner, reason, Some(today + 1)))
  }

  lemma ExceptionsClear(findings: set<string>, keys: seq<string>, owner: string, reason: string, today: int)
    requires Justified(owner, reason) && Text.Elements(keys) == findings && Text.Distinct(keys)
    requires forall f :: f in findings ==> ExactKey(f)
    ensures OneToOne(ExceptionsFor(keys, owner, reason, today), findings, today)
  {
    var items := ExceptionsFor(keys, owner, reason, today);
    forall i | 0 <= i < |items| ensures Usable(items[i], findings, today) {
      assert keys[i] in Text.Elements(keys);
    }
    forall f | f in findings ensures exists i :: 0 <= i < |items| && items[i].Item? && items[i].finding == f {
      assert f in Text.Elements(keys);
      var i :| 0 <= i < |keys| && keys[i] == f;
      assert items[i].finding == f;
    }
  }

  lemma ClearedAreExact(items: seq<Item>, findings: set<string>, today: int)
    requires OneToOne(items, findings, today)
    ensures forall f :: f in findings ==> ExactKey(f)
  {
    forall f | f in findings ensures ExactKey(f) {
      var i :| 0 <= i < |items| && items[i].Item? && items[i].finding == f;
      assert Usable(items[i], findings, today);
    }
  }

  /** Some exceptions clear the findings exactly if each of them is one that can be excepted. */
  lemma ClearableIff(findings: set<string>, today: int)
    ensures (exists items :: OneToOne(items, findings, today)) <==> forall f :: f in findings ==> ExactKey(f)
  {
    if items :| OneToOne(items, findings, today) {
      ClearedAreExact(items, findings, today);
    }
    if forall f :: f in findings ==> ExactKey(f) {
      OwnerIsJustified();
      AscendingIsDistinct(Text.Sorted(findings));
      ExceptionsClear(findings, Text.Sorted(findings), OWNER, REASON, today);
    }
  }

  datatype Refused =
    | ReportRefused(report: GateError) | PolicyRefused(policy: PolicyError) | Unexcepted(keys: seq<string>)

  /** The dependency part of the safety baseline. */
  method Gate(data: Report, dependencies: seq<Package>, items: seq<Item>, today: int) returns (r: Result<(), Refused>)
    ensures r.Ok? <==>
            AcceptableReport(data, dependencies, today) &&
            OneToOne(items, KeysOf(data.findings) + Deprecated(dependencies), today)
  {
    var checked := CheckAdvisories(data, dependencies, today);
    if checked.Err? {
      return Err(ReportRefused(checked.error));
    }
    var findings := checked.value + Deprecated(dependencies);
    NothingRemainsIffOneToOne(items, findings, today);
    var remaining := ApplyExceptions(findings, items, today);
    if remaining.Err? {
      return Err(PolicyRefused(remaining.error));
    }
    return if remaining.value == [] then Ok(()) else Err(Unexcepted(remaining.value));
  }

  // ---------------------------------------------------------------- from the query to the gate

  function AdvisoriesOf(findings: set<Finding>, package: string): set<string> {
    set f | f in findings && f.0 == package :: f.1
  }

  function RowsOf(package: string, advisories: seq<string>): (rows: seq<Row>)
    ensures forall row :: row in rows <==> row.Row? && row.package == package && row.advisory in advisories
  {
    if advisories == [] then [] else [Row(package, advisories[0])] + RowsOf(package, advisories[1..])
  }

  /** The rows of the packages in `ps`, each with its advisories in order. */
  function Rows(findings: set<Finding>, ps: seq<string>): (rows: seq<Row>) {
    if ps == [] then [] else RowsOf(ps[0], Text.Sorted(AdvisoriesOf(findings, ps[0]))) + Rows(findings, ps[1..])
  }

  lemma {:induction false} RowsList(findings: set<Finding>, ps: seq<string>)
    ensures forall row :: row in Rows(findings, ps) <==>
              row.Row? && row.package in ps && (row.package, row.advisory) in findings
  {
    if ps != [] {
      RowsList(findings, ps[1..]);
      var advisories := Text.Sorted(AdvisoriesOf(findings, ps[0]));
      forall a ensures a in advisories <==> (ps[0], a) in findings {
        assert a in advisories <==> a in Text.Elements(advisories);
        assert (ps[0], a) in findings ==> a in AdvisoriesOf(findings, ps[0]);
      }
      assert forall p :: p in ps <==> p == ps[0] || p in ps[1..];
    }
  }

  /** `sorted(findings)`: by package, then by advisory. */
  function SortedFindings(findings: set<Finding>): seq<Row> {
    Rows(findings, Text.Sorted(set f | f in findings :: f.0))
  }

  lemma SortedFindingsList(findings: set<Finding>)
    ensures forall row :: row in SortedFindings(findings) <==> row.Row? && (row.package, row.advisory) in findings
  {
    var packages := set f | f in findings :: f.0;
    RowsList(findings, Text.Sorted(packages));
    forall f | f in findings ensures f.0 in Text.Sorted(packages) {
      assert f.0 in Text.Elements(Text.Sorted(packages));
    }
  }

  function ReportOf(dependencies: seq<Package>, findings: set<Finding>, checkedOn: int): Report {
    Report(true, checkedOn, dependencies, IdsOf(dependencies), SortedFindings(findings))
  }

  ghost predicate OfPackages(findings: set<Finding>, dependencies: seq<Package>) {
    forall f :: f in findings ==> f.0 in IdsOf(dependencies)
  }

  lemma CompleteIsOfPackages(answer: Answer, dependencies: seq<Package>, findings: set<Finding>)
    requires Complete(answer, dependencies, findings)
    ensures OfPackages(findings, dependencies)
  {
    forall f | f in findings ensures f.0 in IdsOf(dependencies) {
      assert (f.0, f.1) in findings;
      var p, tokens :|
        p in dependencies && p.id == f.0 && IsChain(answer, p, tokens) && f.1 in OnChain(answer, p, tokens);
      var i :| 0 <= i < |dependencies| && dependencies[i] == p;
      assert IdsOf(dependencies)[i] == f.0;
    }
  }

  lemma AuditedIsOfPackages(request: Request, dependencies: seq<Package>, findings: set<Finding>)
    requires Audited(request, dependencies, findings)
    ensures OfPackages(findings, dependencies)
  {
    AuditConcernsPackages(request, dependencies, findings);
    forall f | f in findings ensures f.0 in IdsOf(dependencies) {
      var p :| p in dependencies && p.id == f.0;
      var i :| 0 <= i < |dependencies| && dependencies[i] == p;
      assert IdsOf(dependencies)[i] == f.0;
    }
  }

  /** A report of the query is accepted for its inventory exactly while it is fresh and its identifiers are plain. */
  lemma QueryReportIsAccepted(dependencies: seq<Package>, findings: set<Finding>, checkedOn: int, today: int)
    requires OfPackages(findings, dependencies)
    ensures AcceptableReport(ReportOf(dependencies, findings, checkedOn), dependencies, today) <==>
            Fresh(checkedOn, today) && forall f :: f in findings ==> ValidAdvisory(f.1)
    ensures KeysOf(SortedFindings(findings)) == set f | f in findings :: AdvisoryKey(f.1, f.0)
  {
    var rows := SortedFindings(findings);
    SortedFindingsList(findings);
    forall f | f in findings ensures Row(f.0, f.1) in rows {
    }
    if forall i :: 0 <= i < |rows| ==> AcceptableFinding(rows[i], IdsOf(dependencies)) {
      forall f | f in findings ensures ValidAdvisory(f.1) {
        var i :| 0 <= i < |rows| && rows[i] == Row(f.0, f.1);
      }
    }
    forall i | 0 <= i < |rows| && forall f :: f in findings ==> ValidAdvisory(f.1)
      ensures AcceptableFinding(rows[i], IdsOf(dependencies))
    {
      assert rows[i] in rows && (rows[i].package, rows[i].advisory) in findings;
    }
    forall f | f in findings ensures AdvisoryKey(f.1, f.0) in KeysOf(rows) {
      assert Row(f.0, f.1) in rows;
    }
  }

  /** Every advisory identifier is plain, and the exceptions match advisories and deprecations one to one. */
  ghost predicate Cleared(findings: set<Finding>, dependencies: seq<Package>, items: seq<Item>, today: int) {
    && (forall f :: f in findings ==> ValidAdvisory(f.1))
    && OneToOne(items, (set f | f in findings :: AdvisoryKey(f.1, f.0)) + Deprecated(dependencies), today)
  }

  /** What a query with these findings comes to: its report, and whether the gate passes. */
  ghost predicate Reported(dependencies: seq<Package>, findings: set<Finding>, checkedOn: int, items: seq<Item>,
                           today: int, data: Option<Report>, passed: bool)
  {
    && data == Some(ReportOf(dependencies, findings, checkedOn))
    && (passed <==> Fresh(checkedOn, today) && Cleared(findings, dependencies, items, today))
  }

  /**
    * The query and the gate, end to end. Whatever the provider answers, there is a report exactly if every batch comes
    * to its end, and then it holds what all pages listed, and the gate judges that.
    */
  method AuditAndGate(dependencies: seq<Package>, request: Request, ghost answer: Answer, checkedOn: int,
                      items: seq<Item>, today: int) returns (data: Option<Report>, passed: bool)
    ensures data.None? ==> !passed && forall findings :: !Audited(request, dependencies, findings)
    ensures data.Some? ==> exists findings ::
              && Audited(request, dependencies, findings)
              && Reported(dependencies, findings, checkedOn, items, today, data, passed)
              && (ChainProvider(request, answer) ==> Complete(answer, dependencies, findings))
    ensures ChainProvider(request, answer) ==>
              (data.Some? <==> forall p :: p in dependencies ==> Auditable(answer, p))
  {
    var audit := AuditAll(dependencies, request, answer);
    if audit.Err? {
      return None, false;
    }
    var report := ReportOf(dependencies, audit.value, checkedOn);
    AuditedIsOfPackages(request, dependencies, audit.value);
    QueryReportIsAccepted(dependencies, audit.value, checkedOn, today);
    var gate := Gate(report, dependencies, items, today);
    return Some(report), gate.Ok?;
  }

  /** A provider that answers every query with one page listing one advisory. */
  function OnePage(advisory: string): Answer {
    q => Reply(Listed([Advisory(advisory)]), NoToken)
  }

  lemma OnePageIsChain(advisory: string, p: Package)
    requires advisory != ""
    ensures IsChain(OnePage(advisory), p, [None]) && advisory in OnChain(OnePage(advisory), p, [None])
  {
    var page := PageAt(OnePage(advisory), p, None);
    assert page.vulns.entries[0] == Advisory(advisory);
    assert advisory in Advisories(page);
    var tokens: seq<Option<string>> := [None];
    assert tokens[0] == None;
  }

  /** The query accepts any nonempty identifier, the gate only plain ones: a space makes a complete report refused. */
  lemma CompleteReportMayBeRefused(p: Package, findings: set<Finding>, today: int)
    requires Complete(OnePage("A 1"), [p], findings)
    ensures Auditable(OnePage("A 1"), p)
    ensures !AcceptableReport(ReportOf([p], findings, today), [p], today)
  {
    OnePageIsChain("A 1", p);
    assert p in [p];
    assert (p.id, "A 1") in findings;
    CompleteIsOfPackages(OnePage("A 1"), [p], findings);
    QueryReportIsAccepted([p], findings, today, today);
    assert !AdvisoryChar("A 1"[1]);
  }
}
