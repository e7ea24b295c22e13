/** `inventory` and its nested `add` in tools/safety/baseline.py: one canonical record per locked package. */
module PackageInventory {
  import opened Results
  import Text
  import opened PackageNames

  datatype Package = Package(id: string, ecosystem: string, name: string, version: string,
                             locks: seq<string>, licenses: seq<string>, deprecations: seq<string>)

  /** A declared license as read from a lock file; an empty one counts as none. */
  datatype License = NoLicense | License(text: string) | NotText

  /** One call of `add`: a package version seen in the lock file `origin`. */
  datatype Fact = Fact(eco: Ecosystem, name: string, version: string, origin: string,
                       license: License, deprecated: Option<string>)

  datatype Refusal = InvalidId(error: PackageNames.Error) | InvalidLicense

  predicate Has(f: Fact, id: string) {
    PackageId(f.eco, f.name, f.version) == Ok(id)
  }

  predicate Admissible(f: Fact) {
    PackageId(f.eco, f.name, f.version).Ok? && !f.license.NotText?
  }

  function IdOf(f: Fact): string
    requires Admissible(f)
  {
    PackageId(f.eco, f.name, f.version).value
  }

  function LicenseOf(f: Fact): set<string> {
    if f.license.License? && f.license.text != "" then {f.license.text} else {}
  }

  function DeprecationOf(f: Fact): set<string> {
    if f.deprecated.Some? && f.deprecated.value != "" then {f.deprecated.value} else {}
  }

  // ---------------------------------------------------------------- what a record must hold

  ghost function Origins(facts: set<Fact>, id: string): set<string> {
    set f | f in facts && Has(f, id) :: f.origin
  }

  ghost function Licenses(facts: set<Fact>, id: string): set<string> {
    set f, text | f in facts && Has(f, id) && text in LicenseOf(f) :: text
  }

  ghost function Deprecations(facts: set<Fact>, id: string): set<string> {
    set f, text | f in facts && Has(f, id) && text in DeprecationOf(f) :: text
  }

  ghost function Ids(facts: set<Fact>): set<string> {
    set f | f in facts && Admissible(f) :: IdOf(f)
  }

  /** Every fact with this identifier names the same ecosystem, canonical name and version. */
  ghost predicate NamedBy(p: Package, facts: set<Fact>) {
    forall f :: f in facts && Has(f, p.id) ==>
      p.ecosystem == f.eco.Label() && p.name == CanonicalName(f.eco, f.name) && p.version == f.version
  }

  ghost predicate IsRecord(p: Package, facts: set<Fact>) {
    && NamedBy(p, facts)
    && p.locks == Text.Sorted(Origins(facts, p.id))
    && p.licenses == Text.Sorted(Licenses(facts, p.id))
    && p.deprecations == Text.Sorted(Deprecations(facts, p.id))
  }

  function IdsOf(records: seq<Package>): seq<string> {
    seq(|records|, i requires 0 <= i < |records| => records[i].id)
  }

  /** One record per identifier, in the order of the identifiers, each with everything the facts say. */
  ghost predicate IsInventory(records: seq<Package>, facts: set<Fact>) {
    && IdsOf(records) == Text.Sorted(Ids(facts))
    && forall i :: 0 <= i < |records| ==> IsRecord(records[i], facts)
  }

  /** The inventory is determined by the set of facts: neither order nor repetition of calls matters. */
  lemma InventoryIsCanonical(a: seq<Package>, b: seq<Package>, facts: set<Fact>)
    requires IsInventory(a, facts) && IsInventory(b, facts)
    ensures a == b
  {
    assert |a| == |IdsOf(a)| == |IdsOf(b)| == |b|;
    forall i | 0 <= i < |a| ensures a[i] == b[i] {
      assert IdsOf(a)[i] == a[i].id && IdsOf(b)[i] == b[i].id;
      assert a[i].id in Text.Elements(Text.Sorted(Ids(facts)));
      var f :| f in facts && Admissible(f) && IdOf(f) == a[i].id;
      assert Has(f, a[i].id);
    }
  }

  // ---------------------------------------------------------------- lists grown one new value at a time

  predicate ListOf(q: seq<string>, s: set<string>) {
    Text.Distinct(q) && Text.Elements(q) == s
  }

  function AppendNew(q: seq<string>, x: string): seq<string> {
    if x in q then q else q + [x]
  }

  lemma AppendNewLists(q: seq<string>, s: set<string>, x: string)
    requires ListOf(q, s)
    ensures ListOf(AppendNew(q, x), s + {x})
  {
    if x !in q {
      assert forall y :: y in q + [x] <==> y in q || y == x;
    }
  }

  lemma FactsGrow(facts: set<Fact>, f: Fact, id: string)
    ensures Origins(facts + {f}, id) == Origins(facts, id) + (if Has(f, id) then {f.origin} else {})
    ensures Licenses(facts + {f}, id) == Licenses(facts, id) + (if Has(f, id) then LicenseOf(f) else {})
    ensures Deprecations(facts + {f}, id) == Deprecations(facts, id) + (if Has(f, id) then DeprecationOf(f) else {})
  {
    assert Has(f, id) ==> f.origin in Origins(facts + {f}, id);
    assert forall text :: Has(f, id) && text in LicenseOf(f) ==> text in Licenses(facts + {f}, id);
    assert forall text :: Has(f, id) && text in DeprecationOf(f) ==> text in Deprecations(facts + {f}, id);
  }

  // ---------------------------------------------------------------- the table

  ghost predicate Lists(p: Package, facts: set<Fact>) {
    && ListOf(p.locks, Origins(facts, p.id))
    && ListOf(p.licenses, Licenses(facts, p.id))
    && ListOf(p.deprecations, Deprecations(facts, p.id))
  }

  /** What the table holds for one identifier while facts are still being added. */
  ghost predicate IsDraft(p: Package, id: string, facts: set<Fact>) {
    p.id == id && NamedBy(p, facts) && Lists(p, facts)
  }

  function Bare(f: Fact, id: string): Package
    requires Has(f, id)
  {
    IdSplits(f.eco, f.name, f.version);
    Package(id, f.eco.Label(), BeforeLastAt(AfterLabel(f.eco, id)), f.version, [], [], [])
  }

  function Extend(p: Package, f: Fact): Package {
    var licensed :=
      if f.license.License? && f.license.text != "" then AppendNew(p.licenses, f.license.text) else p.licenses;
    var noted := if f.deprecated.Some? && f.deprecated.value != "" then AppendNew(p.deprecations, f.deprecated.value)
                 else p.deprecations;
    p.(locks := AppendNew(p.locks, f.origin), licenses := licensed, deprecations := noted)
  }

  lemma BareIsDraft(f: Fact, id: string, facts: set<Fact>)
    requires Has(f, id) && forall g :: g in facts ==> !Has(g, id)
    ensures IsDraft(Bare(f, id), id, facts)
  {
    assert Origins(facts, id) == {} && Licenses(facts, id) == {} && Deprecations(facts, id) == {};
  }

  /** Facts that share an identifier agree on what the record is named after. */
  lemma SameIdSameName(p: Package, f: Fact, facts: set<Fact>)
    requires Has(f, p.id) && NamedBy(p, facts)
    requires (exists g :: g in facts && Has(g, p.id)) || NamedBy(p, {f})
    ensures NamedBy(p, facts + {f})
  {
    if g :| g in facts && Has(g, p.id) {
      IdsAreInjective(f.eco, f.name, f.version, g.eco, g.name, g.version);
      NormalizeIffAlike(f.name, g.name);
    }
  }

  lemma ExtendIsDraft(p: Package, f: Fact, facts: set<Fact>)
    requires Has(f, p.id) && IsDraft(p, p.id, facts) && NamedBy(p, facts + {f})
    ensures IsDraft(Extend(p, f), p.id, facts + {f})
  {
    FactsGrow(facts, f, p.id);
    AppendNewLists(p.locks, Origins(facts, p.id), f.origin);
    if f.license.License? && f.license.text != "" {
      AppendNewLists(p.licenses, Licenses(facts, p.id), f.license.text);
    }
    if f.deprecated.Some? && f.deprecated.value != "" {
      AppendNewLists(p.deprecations, Deprecations(facts, p.id), f.deprecated.value);
    }
  }

  lemma OthersStayDrafts(p: Package, f: Fact, facts: set<Fact>)
    requires IsDraft(p, p.id, facts) && !Has(f, p.id)
    ensures IsDraft(p, p.id, facts + {f})
  {
    FactsGrow(facts, f, p.id);
  }

  function SortLists(p: Package): Package {
    p.(locks := Text.Sorted(Text.Elements(p.locks)), licenses := Text.Sorted(Text.Elements(p.licenses)),
       deprecations := Text.Sorted(Text.Elements(p.deprecations)))
  }

  lemma SortedDraftIsRecord(p: Package, facts: set<Fact>)
    requires IsDraft(p, p.id, facts)
    ensures IsRecord(SortLists(p), facts)
  {
  }

  lemma AscendingIsDistinct(q: seq<string>)
    requires Text.Ascending(q)
    ensures Text.Distinct(q)
  {
    forall i, j | 0 <= i < j < |q| ensures q[i] != q[j] {
      Text.LessIsTotal(q[i], q[j]);
    }
  }

  function RecordsAt(packages: map<string, Package>, ids: seq<string>): seq<Package>
    requires forall k :: 0 <= k < |ids| ==> ids[k] in packages
  {
    seq(|ids|, k requires 0 <= k < |ids| => packages[ids[k]])
  }

  lemma RecordsAtFacts(packages: map<string, Package>, ids: seq<string>)
    requires forall k :: 0 <= k < |ids| ==> ids[k] in packages && packages[ids[k]].id == ids[k]
    ensures var records := RecordsAt(packages, ids);
            IdsOf(records) == ids &&
            forall k :: 0 <= k < |records| ==> ids[k] in packages && records[k] == packages[ids[k]]
  {
  }

  lemma SortedKeysAreIn(keys: set<string>)
    ensures Text.Distinct(Text.Sorted(keys))
    ensures forall k :: 0 <= k < |Text.Sorted(keys)| ==> Text.Sorted(keys)[k] in keys
  {
    var ids := Text.Sorted(keys);
    AscendingIsDistinct(ids);
    forall k | 0 <= k < |ids| ensures ids[k] in keys {
      assert ids[k] in Text.Elements(ids);
    }
  }

  ghost predicate IsTable(packages: map<string, Package>, facts: set<Fact>) {
    && (forall f :: f in facts ==> Admissible(f))
    && packages.Keys == Ids(facts)
    && forall id :: id in packages ==> IsDraft(packages[id], id, facts)
  }

  /** Sorting every list of a valid table and listing it by identifier gives the inventory. */
  lemma SortedTableIsInventory(drafts: map<string, Package>, packages: map<string, Package>, facts: set<Fact>)
    requires IsTable(drafts, facts) && packages.Keys == drafts.Keys
    requires forall id :: id in drafts ==> packages[id] == SortLists(drafts[id])
    ensures var ids := Text.Sorted(packages.Keys);
            (forall k :: 0 <= k < |ids| ==> ids[k] in packages) && IsInventory(RecordsAt(packages, ids), facts)
  {
    var ids := Text.Sorted(packages.Keys);
    SortedKeysAreIn(packages.Keys);
    RecordsAtFacts(packages, ids);
    var records := RecordsAt(packages, ids);
    forall k | 0 <= k < |records| ensures IsRecord(records[k], facts) {
      SortedDraftIsRecord(drafts[ids[k]], facts);
    }
  }

  lemma KnownDraft(p: Package, f: Fact, facts: set<Fact>)
    requires Has(f, p.id) && IsDraft(p, p.id, facts) && p.id in Ids(facts)
    ensures NamedBy(p, facts + {f})
  {
    var g :| g in facts && Admissible(g) && IdOf(g) == p.id;
    assert Has(g, p.id);
    SameIdSameName(p, f, facts);
  }

  lemma NewDraft(f: Fact, id: string, facts: set<Fact>)
    requires Has(f, id) && id !in Ids(facts) && forall g :: g in facts ==> Admissible(g)
    ensures IsDraft(Bare(f, id), id, facts) && NamedBy(Bare(f, id), facts + {f})
  {
    forall g | g in facts ensures !Has(g, id) {
      assert IdOf(g) in Ids(facts);
    }
    BareIsDraft(f, id, facts);
    BareIsNamed(f, id);
  }

  /** A new record is named after the canonical name that its identifier holds. */
  lemma BareIsNamed(f: Fact, id: string)
    requires Has(f, id)
    ensures NamedBy(Bare(f, id), {f})
  {
    IdSplits(f.eco, f.name, f.version);
  }

  lemma ItemBecomesDraft(packages: map<string, Package>, facts: set<Fact>, f: Fact, id: string, item: Package)
    requires IsTable(packages, facts) && Has(f, id)
    requires item == if id in packages then packages[id] else Bare(f, id)
    ensures IsDraft(Extend(item, f), id, facts + {f})
  {
    if id in packages {
      KnownDraft(item, f, facts);
    } else {
      NewDraft(f, id, facts);
    }
    ExtendIsDraft(item, f, facts);
  }

  lemma OtherItemsStayDrafts(packages: map<string, Package>, facts: set<Fact>, f: Fact, id: string)
    requires IsTable(packages, facts) && Has(f, id)
    ensures forall other :: other in packages && other != id ==> IsDraft(packages[other], other, facts + {f})
  {
    forall other | other in packages && other != id ensures IsDraft(packages[other], other, facts + {f}) {
      OthersStayDrafts(packages[other], f, facts);
    }
  }

  /** Adding a fact to its record keeps every record a draft of the facts so far. */
  lemma AddKeepsTable(packages: map<string, Package>, facts: set<Fact>, f: Fact, id: string, item: Package)
    requires IsTable(packages, facts) && Admissible(f) && Has(f, id)
    requires item == if id in packages then packages[id] else Bare(f, id)
    ensures IsTable(packages[id := Extend(item, f)], facts + {f})
  {
    ItemBecomesDraft(packages, facts, f, id, item);
    OtherItemsStayDrafts(packages, facts, f, id);
    IdsGrow(facts, f, id);
  }

  lemma IdsGrow(facts: set<Fact>, f: Fact, id: string)
    requires Admissible(f) && Has(f, id)
    ensures Ids(facts + {f}) == Ids(facts) + {id}
  {
    assert f in facts + {f} && IdOf(f) == id;
  }

  class Table {
    var packages: map<string, Package>
    ghost var facts: set<Fact>

    ghost predicate Valid()
      reads this
    {
      IsTable(packages, facts)
    }

    constructor ()
      ensures Valid() && facts == {}
    {
      packages, facts := map[], {};
    }

    method Add(f: Fact) returns (r: Result<(), Refusal>)
      requires Valid()
      modifies this
      ensures r.Ok? <==> Admissible(f)
      ensures r.Ok? ==> Valid() && facts == old(facts) + {f}
    {
      var key := PackageId(f.eco, f.name, f.version);
      if key.Err? {
        return Err(InvalidId(key.error));
      }
      var id := key.value;
      var item := if id in packages then packages[id] else Bare(f, id);
      if f.license.NotText? {
        packages := packages[id := item.(locks := AppendNew(item.locks, f.origin))];
        return Err(InvalidLicense);
      }
      AddKeepsTable(packages, facts, f, id, item);
      packages := packages[id := Extend(item, f)];
      facts := facts + {f};
      return Ok(());
    }

    /** `item[field].sort()` for every record. */
    method SortAll(ids: seq<string>)
      requires Text.Distinct(ids) && Text.Elements(ids) == packages.Keys
      modifies this`packages
      ensures packages.Keys == old(packages.Keys)
      ensures forall id :: id in packages ==> packages[id] == SortLists(old(packages)[id])
    {
      ghost var drafts := packages;
      for i := 0 to |ids|
        invariant packages.Keys == drafts.Keys
        invariant forall id :: id in packages ==>
          packages[id] == if id in ids[..i] then SortLists(drafts[id]) else drafts[id]
      {
        assert ids[i] in Text.Elements(ids);
        assert ids[i] !in ids[..i];
        assert ids[..i + 1] == ids[..i] + [ids[i]];
        packages := packages[ids[i] := SortLists(packages[ids[i]])];
      }
      assert forall id :: id in packages ==> id in Text.Elements(ids);
      assert ids[..|ids|] == ids;
    }

    /** Sorts every list in place, then lists the records by identifier. */
    method Finish() returns (records: seq<Package>)
      requires Valid()
      modifies this`packages
      ensures IsInventory(records, facts)
    {
      var ids := Text.Sorted(packages.Keys);
      SortedKeysAreIn(packages.Keys);
      SortAll(ids);
      SortedTableIsInventory(old(packages), packages, facts);
      records := RecordsAt(packages, ids);
    }
  }

  /** What the first `n` calls said. */
  ghost function Said(facts: seq<Fact>, n: nat): set<Fact>
    requires n <= |facts|
  {
    set k | 0 <= k < n :: facts[k]
  }

  lemma SaidGrows(facts: seq<Fact>, n: nat)
    requires n < |facts|
    ensures Said(facts, n + 1) == Said(facts, n) + {facts[n]}
  {
  }

  /** The whole inventory: refused exactly when some fact is, and otherwise a function of the set of facts. */
  method Inventory(facts: seq<Fact>) returns (r: Result<seq<Package>, Refusal>)
    ensures r.Ok? <==> forall k :: 0 <= k < |facts| ==> Admissible(facts[k])
    ensures r.Ok? ==> IsInventory(r.value, Said(facts, |facts|))
  {
    var table := new Table();
    for i := 0 to |facts|
      invariant table.Valid() && fresh(table)
      invariant forall k :: 0 <= k < i ==> Admissible(facts[k])
      invariant table.facts == Said(facts, i)
    {
      var added := table.Add(facts[i]);
      if added.Err? {
        return Err(added.error);
      }
      SaidGrows(facts, i);
    }
    var records := table.Finish();
    return Ok(records);
  }
}
