/** `example` in tools/contracts/generate.py: one value for each schema node. */
module ContractExamples {
  import opened Json
  import opened Results
  import opened JsonSchema
  import opened SchemaApartness
  import opened Characters
  import Formats
  import L = Lines

  datatype Problem = MissingKey(key: string) | EmptyList | UnsupportedType(name: string)

  /** `TooDeep` says that more nested references than the budget allows must be followed. */
  datatype Outcome<+T> = Value(value: T) | Failed(problem: Problem) | TooDeep {
    predicate IsFailure() {
      !Value?
    }

    function PropagateFailure<U>(): Outcome<U>
      requires !Value?
    {
      if TooDeep? then TooDeep else Failed(problem)
    }

    function Extract(): T
      requires Value?
    {
      value
    }
  }

  function Find(properties: seq<Property>, key: string): (r: Option<nat>)
    ensures r.Some? ==> r.value < |properties| && properties[r.value].key == key
    ensures r.None? ==> forall i :: 0 <= i < |properties| ==> properties[i].key != key
  {
    if properties == [] then None
    else if properties[0].key == key then Some(0)
    else match Find(properties[1..], key)
      case None => None
      case Some(i) => Some(i + 1)
  }

  function Repeat<T>(x: T, n: nat): (q: seq<T>)
    ensures |q| == n && forall i :: 0 <= i < n ==> q[i] == x
  {
    seq(n, _ => x)
  }

  /** aaaaaaaa-aaaa-4aaa-8aaa-aaaaaaaaaaaa */
  function UuidExample(): string {
    seq(36, i => if i in {8, 13, 18, 23} then '-' else if i == 14 then '4' else if i == 19 then '8' else 'a')
  }

  const PATH_EXAMPLE := "raw/example"

  function Fallback(s: Schema): string {
    if s.minLength.Some? && s.minLength.value > 0 then Repeat('x', s.minLength.value) else "example"
  }

  function StringExample(s: Schema): string {
    match s.format
    case Some(Uuid) => UuidExample()
    case Some(Sha256) => Repeat('a', 64)
    case Some(Unsigned(64)) => "0"
    case Some(Signed(64)) => "0"
    case Some(RelativePath) => PATH_EXAMPLE
    case _ => Fallback(s)
  }

  /** The recursion of the source, cut off after `k` nested references. */
  function Example(k: nat, defs: Definitions, s: Schema): Outcome<Json>
    decreases k, s, |s.required| + 1
  {
    if s.ref.Some? then
      if Target(s.ref.value) !in defs then Failed(MissingKey(Target(s.ref.value)))
      else if k == 0 then TooDeep
      else Example(k - 1, defs, defs[Target(s.ref.value)])
    else if s.const_.Some? then Value(s.const_.value)
    else if s.enum_.Enum? then
      if s.enum_.values == [] then Failed(EmptyList) else Value(s.enum_.values[0])
    else if s.oneOf.OneOf? then
      if s.oneOf.branches == [] then Failed(EmptyList) else Example(k, defs, s.oneOf.branches[0])
    else if s.kind.None? then Failed(MissingKey("type"))
    else match s.kind.value
      case ObjectKind =>
        var fields :- ExampleMembers(k, defs, s, |s.required|);
        Value(Object(fields))
      case ArrayKind =>
        if s.minItems.None? || s.minItems.value == 0 then Value(Array([]))
        else if s.items.NoItems? then Failed(MissingKey("items"))
        else
          var item :- Example(k, defs, s.items.schema);
          Value(Array(Repeat(item, s.minItems.value)))
      case StringKind => Value(String(StringExample(s)))
      case IntegerKind => Value(Number(if s.minimum.Some? then s.minimum.value else 0.0))
      case NumberKind => Value(Number(if s.minimum.Some? then s.minimum.value else 0.0))
      case BooleanKind => Value(Bool(false))
      case NullKind => Value(Null)
      case UnknownKind(name) => Failed(UnsupportedType(name))
  }

  /** The members for the first `m` required keys. */
  function ExampleMembers(k: nat, defs: Definitions, s: Schema, m: nat): Outcome<map<string, Json>>
    requires m <= |s.required|
    decreases k, s, m
  {
    if m == 0 then Value(map[])
    else
      var fields :- ExampleMembers(k, defs, s, m - 1);
      match Find(s.properties, s.required[m - 1])
      case None => Failed(MissingKey(s.required[m - 1]))
      case Some(i) =>
        var x :- Example(k, defs, s.properties[i].schema);
        Value(fields[s.required[m - 1] := x])
  }

  // ---------------------------------------------------------------- what the example needs

  predicate LengthAllowed(s: Schema, length: nat) {
    && (s.minLength.Some? ==> s.minLength.value <= length)
    && (s.maxLength.Some? ==> length <= s.maxLength.value)
  }

  /** The length of the text for a format the source has no example for. */
  function FallbackLength(s: Schema): nat {
    if s.minLength.Some? && s.minLength.value > 0 then s.minLength.value else 7
  }

  /** The string keywords under which the fixed texts of the source are valid. */
  predicate StringReady(s: Schema) {
    match s.format
    case Some(Uuid) => LengthAllowed(s, 36)
    case Some(Sha256) => LengthAllowed(s, 64)
    case Some(RelativePath) => LengthAllowed(s, 11)
    case Some(Unsigned(bits)) => bits == 64 && LengthAllowed(s, 1)
    case Some(Signed(bits)) => bits == 64 && LengthAllowed(s, 1)
    case Some(Name) => FallbackLength(s) <= 256 && LengthAllowed(s, FallbackLength(s))
    case Some(DiagnosticText) => FallbackLength(s) <= 32768 && LengthAllowed(s, FallbackLength(s))
    case Some(DatasetPath) => LengthAllowed(s, FallbackLength(s))
    case Some(Base64) => FallbackLength(s) % 4 == 0 && LengthAllowed(s, FallbackLength(s))
    case Some(Timezone) => false
    case Some(Date) => false
    case Some(Float(_)) => false
    case None => LengthAllowed(s, FallbackLength(s))
  }

  predicate NumberReady(s: Schema) {
    && (s.kind == Some(IntegerKind) && s.minimum.Some? ==> Integral(s.minimum.value))
    && (s.maximum.Some? ==> (if s.minimum.Some? then s.minimum.value else 0.0) <= s.maximum.value)
  }

  predicate DistinctKeys(properties: seq<Property>) {
    forall i, j :: 0 <= i < j < |properties| ==> properties[i].key != properties[j].key
  }

  /** No keyword of `s` looks into the items or members of `v`. */
  predicate Undescended(s: Schema, v: Json) {
    && (v.Array? ==> s.items.NoItems?)
    && (v.Object? ==> s.properties == [] && (s.additional.Unspecified? || s.additional == Allowed(true)))
  }

  /**
    * What the nodes that `example` visits must satisfy. References and `oneOf` stand alone,
    * the other branches of a `oneOf` are apart from the first, required keys are declared,
    * and the counts leave room for the value that is chosen. Strings and numbers are leaves, see below.
    */
  ghost predicate Ready(k: nat, defs: Definitions, s: Schema)
    decreases s, 1
  {
    if s.ref.Some? then s == EMPTY.(ref := s.ref) && Target(s.ref.value) in defs
    else if s.const_.Some? then
      s.oneOf.NoOneOf? && Local(s, s.const_.value) && Undescended(s, s.const_.value)
    else if s.enum_.Enum? then
      s.oneOf.NoOneOf? && s.enum_.values != [] && Local(s, s.enum_.values[0]) && Undescended(s, s.enum_.values[0])
    else if s.oneOf.OneOf? then
      s == EMPTY.(oneOf := s.oneOf) && s.oneOf.branches != [] && Ready(k, defs, s.oneOf.branches[0]) &&
      forall j :: 0 < j < |s.oneOf.branches| ==> Apart(k, defs, s.oneOf.branches[0], s.oneOf.branches[j])
    else if s.kind.None? then false
    else match s.kind.value
      case ObjectKind => ReadyMembers(k, defs, s)
      case ArrayKind =>
        (s.minItems.Some? && s.maxItems.Some? ==> s.minItems.value <= s.maxItems.value) &&
        (s.minItems.Some? && s.minItems.value > 0 ==> s.items.Items? && Ready(k, defs, s.items.schema))
      case UnknownKind(_) => false
      case _ => true
  }

  /** At every string and number that `example` visits, the keywords leave room for the value that is chosen. */
  predicate LeavesReady(m: nat, defs: Definitions, s: Schema)
    decreases m, s
  {
    if s.ref.Some? then
      m > 0 && Target(s.ref.value) in defs ==> LeavesReady(m - 1, defs, defs[Target(s.ref.value)])
    else if s.const_.Some? || s.enum_.Enum? then true
    else if s.oneOf.OneOf? then
      s.oneOf.branches != [] ==> LeavesReady(m, defs, s.oneOf.branches[0])
    else match s.kind
      case Some(ObjectKind) =>
        forall i :: 0 <= i < |s.properties| && s.properties[i].key in s.required ==>
          LeavesReady(m, defs, s.properties[i].schema)
      case Some(ArrayKind) =>
        s.minItems.Some? && s.minItems.value > 0 && s.items.Items? ==> LeavesReady(m, defs, s.items.schema)
      case Some(StringKind) => StringReady(s)
      case Some(IntegerKind) => NumberReady(s)
      case Some(NumberKind) => NumberReady(s)
      case _ => true
  }

  ghost predicate ReadyMembers(k: nat, defs: Definitions, s: Schema)
    decreases s, 0
  {
    DistinctKeys(s.properties) &&
    (forall key :: key in s.required ==> Declared(s, key)) &&
    forall i :: 0 <= i < |s.properties| && s.properties[i].key in s.required ==>
      Ready(k, defs, s.properties[i].schema)
  }

  /** The definitions `example` must look up before it can return a value for `s`. */
  function MustRefs(s: Schema): set<string> {
    if s.ref.Some? then {Target(s.ref.value)}
    else if s.const_.Some? || s.enum_.Enum? then {}
    else if s.oneOf.OneOf? then
      if s.oneOf.branches == [] then {} else MustRefs(s.oneOf.branches[0])
    else if s.kind == Some(ObjectKind) then
      set i, name | 0 <= i < |s.properties| && s.properties[i].key in s.required &&
        name in MustRefs(s.properties[i].schema) :: name
    else if s.kind == Some(ArrayKind) && s.minItems.Some? && s.minItems.value > 0 && s.items.Items? then
      MustRefs(s.items.schema)
    else {}
  }

  /** `names` holds, with each definition, all that `example` must look up for it; and all of them are ready. */
  ghost predicate ReadyWithin(k: nat, defs: Definitions, names: set<string>) {
    forall name :: name in names ==> name in defs && Ready(k, defs, defs[name]) && MustRefs(defs[name]) <= names
  }

  // ---------------------------------------------------------------- leaves

  /** The keywords of a string node, and nothing else. */
  predicate StringNode(s: Schema) {
    s == EMPTY.(kind := Some(StringKind), minLength := s.minLength, maxLength := s.maxLength, format := s.format)
  }

  lemma UuidExampleIsValid()
    ensures Formats.Accepts(Formats.Uuid, UuidExample())
  {
  }

  lemma TwoPartPathIsValid(path: string, slash: nat)
    requires 2 < slash && slash + 3 < |path| && path[slash] == '/'
    requires forall i :: 0 <= i < |path| && i != slash ==> path[i] != '/'
    requires Formats.PathText(path)
    ensures Formats.Accepts(Formats.RelativePath, path)
  {
    var a, b := path[..slash], path[slash + 1..];
    assert path == a + ['/'] + b && L.JoinAt([a], '/') == a;
    L.JoinAtOneMore([a], b, '/');
    assert [a] + [b] == [a, b] && L.AreParts([a, b], '/');
    L.JoinAtSplits([a, b], '/');
  }

  /** The two shapes of the fallback text. */
  predicate IsFallback(text: string) {
    text == "example" || (text != "" && forall i :: 0 <= i < |text| ==> text[i] == 'x')
  }

  lemma FallbackIsOnePart(text: string)
    requires IsFallback(text)
    ensures L.SplitAt(text, '/') == [text]
  {
    assert L.JoinAt([text], '/') == text && L.AreParts([text], '/');
    L.JoinAtSplits([text], '/');
  }

  lemma KeywordStarts(text: string)
    requires Formats.PythonKeyword(text)
    ensures text != "" && text[0] != 'x' && text != "example"
  {
  }

  lemma FallbackIsNoKeyword(text: string)
    requires IsFallback(text)
    ensures !Formats.PythonKeyword(text)
  {
    if Formats.PythonKeyword(text) {
      KeywordStarts(text);
    }
  }

  lemma FallbackIsDatasetPath(text: string)
    requires IsFallback(text)
    ensures Formats.Accepts(Formats.DatasetPath, text) && !Formats.Accepts(Formats.Timezone, text)
  {
    FallbackIsOnePart(text);
    FallbackIsNoKeyword(text);
    assert Formats.PathSegment(text);
  }

  lemma FallbackIsNoDate(text: string)
    requires IsFallback(text)
    ensures !Formats.Accepts(Formats.Date, text)
  {
    if |text| == 10 {
      assert text[0..4][0] == 'x';
    }
  }

  lemma FallbackIsNoFloat(text: string, width: nat)
    requires IsFallback(text)
    ensures !Formats.Accepts(Formats.Float(width), text)
  {
    var e := Formats.FirstOf(text, 'e', 'E', 0);
    var whole := text[..e];
    var dot := Formats.FirstOf(whole, '.', '.', 0);
    if dot > 0 {
      assert whole[..dot][0] == text[0];
    }
    assert !Formats.Natural(whole[..dot]);
  }

  lemma {:induction false} FallbackBytes(text: string)
    requires forall i :: 0 <= i < |text| ==> text[i] < '\U{80}'
    ensures Bytes(text) == |text|
  {
    if text != "" {
      FallbackBytes(text[..|text| - 1]);
    }
  }

  lemma FallbackIsSafe(text: string)
    requires IsFallback(text)
    ensures Formats.Accepts(Formats.DiagnosticText, text) <==> |text| <= 32768
  {
    FallbackBytes(text);
  }

  lemma FallbackInBase64(text: string)
    requires IsFallback(text)
    ensures Formats.Accepts(Formats.Base64, text) <==> |text| % 4 == 0
  {
    assert Formats.Unpadded(text) == text;
    if text != "example" {
      assert forall i :: 0 <= i < |text| ==> Formats.Sextet(text[i]) == 49;
    }
  }

  predicate TextAllowed(s: Schema, text: string) {
    LengthAllowed(s, |text|) && (s.format.Some? ==> Formats.Accepts(s.format.value, text))
  }

  lemma FallbackIsFallback(s: Schema)
    ensures IsFallback(Fallback(s)) && |Fallback(s)| == FallbackLength(s)
    ensures !Digit(Fallback(s)[0]) && Fallback(s)[0] != '-'
  {
  }

  lemma StringTextIsExact(s: Schema)
    ensures TextAllowed(s, StringExample(s)) <==> StringReady(s)
  {
    FallbackIsFallback(s);
    match s.format
    case Some(Uuid) => UuidExampleIsValid();
    case Some(RelativePath) => TwoPartPathIsValid(PATH_EXAMPLE, 3);
    case Some(Unsigned(bits)) => ZeroIsValid(bits);
    case Some(Signed(bits)) => ZeroIsValid(bits);
    case Some(Float(width)) => FallbackIsNoFloat(Fallback(s), width);
    case Some(DatasetPath) => FallbackIsDatasetPath(Fallback(s));
    case Some(Timezone) => FallbackIsDatasetPath(Fallback(s));
    case Some(Date) => FallbackIsNoDate(Fallback(s));
    case Some(DiagnosticText) => FallbackIsSafe(Fallback(s));
    case Some(Base64) => FallbackInBase64(Fallback(s));
    case Some(_) =>
    case None =>
  }

  /** The text chosen for a string node is valid exactly when its lengths and format leave room for it. */
  lemma StringExampleIsExact(n: nat, defs: Definitions, s: Schema)
    requires StringNode(s)
    ensures Accepts(n, defs, s, String(StringExample(s))) <==> StringReady(s)
  {
    StringTextIsExact(s);
    var text := StringExample(s);
    assert Accepts(n, defs, s, String(text)) <==> Local(s, String(text));
  }

  lemma ZeroIsValid(bits: nat)
    ensures Formats.Accepts(Formats.Unsigned(bits), "0")
    ensures bits > 0 ==> Formats.Accepts(Formats.Signed(bits), "0")
  {
    assert Decimal("0") == 0;
  }

  predicate NumberNode(s: Schema) {
    s == EMPTY.(kind := s.kind, minimum := s.minimum, maximum := s.maximum) &&
    (s.kind == Some(IntegerKind) || s.kind == Some(NumberKind))
  }

  lemma NumberExampleIsExact(n: nat, defs: Definitions, s: Schema)
    requires NumberNode(s)
    ensures Example(n, defs, s).Value?
    ensures Accepts(n, defs, s, Example(n, defs, s).value) <==> NumberReady(s)
  {
    var v := Example(n, defs, s).value;
    assert Accepts(n, defs, s, v) <==> Local(s, v);
  }

  /** A node that `example` treats as an object. */
  predicate IsObjectNode(s: Schema) {
    s.ref.None? && s.const_.None? && s.enum_.NoEnum? && s.oneOf.NoOneOf? && s.kind == Some(ObjectKind)
  }

  // ---------------------------------------------------------------- correctness

  /** Whatever `example` returns for a ready node with ready leaves validates against that node. */
  lemma {:induction false} ExampleIsAccepted(m: nat, k: nat, defs: Definitions, names: set<string>, s: Schema)
    requires Ready(k, defs, s) && MustRefs(s) <= names && ReadyWithin(k, defs, names)
    requires Example(m, defs, s).Value? && LeavesReady(m, defs, s)
    ensures Accepts(m + k, defs, s, Example(m, defs, s).value)
    decreases m, s, |s.required| + 1, 1
  {
    var v := Example(m, defs, s).value;
    if s.ref.Some? {
      ExampleIsAccepted(m - 1, k, defs, names, defs[Target(s.ref.value)]);
      assert RefAccepts(m + k, defs, s, v);
      AcceptsParts(m + k, defs, s, v);
    } else if s.const_.Some? || s.enum_.Enum? {
      AcceptsParts(m + k, defs, s, v);
    } else if s.oneOf.OneOf? {
      FirstBranchIsAccepted(m, k, defs, names, s);
    } else {
      KindIsAccepted(m, k, defs, names, s);
    }
  }

  lemma {:induction false} KindIsAccepted(m: nat, k: nat, defs: Definitions, names: set<string>, s: Schema)
    requires Ready(k, defs, s) && MustRefs(s) <= names && ReadyWithin(k, defs, names)
    requires s.ref.None? && s.const_.None? && s.enum_.NoEnum? && s.oneOf.NoOneOf?
    requires Example(m, defs, s).Value? && LeavesReady(m, defs, s)
    ensures Accepts(m + k, defs, s, Example(m, defs, s).value)
    decreases m, s, |s.required| + 1, 0
  {
    if s.kind == Some(ObjectKind) {
      MembersAreAccepted(m, k, defs, names, s);
    } else if s.kind == Some(ArrayKind) {
      ItemsAreAccepted(m, k, defs, names, s);
    } else {
      LeafIsAccepted(m, k, defs, s);
    }
  }

  lemma LeafIsAccepted(m: nat, k: nat, defs: Definitions, s: Schema)
    requires Ready(k, defs, s)
    requires s.ref.None? && s.const_.None? && s.enum_.NoEnum? && s.oneOf.NoOneOf?
    requires s.kind != Some(ObjectKind) && s.kind != Some(ArrayKind)
    requires Example(m, defs, s).Value? && LeavesReady(m, defs, s)
    ensures Accepts(m + k, defs, s, Example(m, defs, s).value)
  {
    if s.kind == Some(StringKind) {
      StringTextIsExact(s);
    }
    AcceptsParts(m + k, defs, s, Example(m, defs, s).value);
  }

  lemma {:induction false} ItemsAreAccepted(m: nat, k: nat, defs: Definitions, names: set<string>, s: Schema)
    requires Ready(k, defs, s) && MustRefs(s) <= names && ReadyWithin(k, defs, names)
    requires s.ref.None? && s.const_.None? && s.enum_.NoEnum? && s.oneOf.NoOneOf? && s.kind == Some(ArrayKind)
    requires Example(m, defs, s).Value? && LeavesReady(m, defs, s)
    ensures Accepts(m + k, defs, s, Example(m, defs, s).value)
    decreases m, s, 0, 0
  {
    var v := Example(m, defs, s).value;
    if v.items != [] {
      ExampleIsAccepted(m, k, defs, names, s.items.schema);
      ArrayIsAccepted(m + k, defs, s, v, v.items[0]);
    } else {
      AcceptsParts(m + k, defs, s, v);
    }
  }

  lemma {:induction false} FirstBranchIsAccepted(m: nat, k: nat, defs: Definitions, names: set<string>, s: Schema)
    requires Ready(k, defs, s) && MustRefs(s) <= names && ReadyWithin(k, defs, names) && s.oneOf.OneOf?
    requires s.ref.None? && s.const_.None? && s.enum_.NoEnum? && Example(m, defs, s).Value?
    requires LeavesReady(m, defs, s)
    ensures Accepts(m + k, defs, s, Example(m, defs, s).value)
    decreases m, s, 0, 0
  {
    var v := Example(m, defs, s).value;
    ExampleIsAccepted(m, k, defs, names, s.oneOf.branches[0]);
    forall j | 0 < j < |s.oneOf.branches| ensures Rejects(m + k, defs, s.oneOf.branches[j], v) {
      ApartSchemasExclude(m + k, k, defs, s.oneOf.branches[0], s.oneOf.branches[j], v);
      VerdictsPersist(k, m + k, defs, s.oneOf.branches[j], v);
    }
    assert OneOfAccepts(m + k, defs, s, v);
    AcceptsParts(m + k, defs, s, v);
  }

  ghost predicate FieldsAccepted(n: nat, defs: Definitions, properties: seq<Property>, fields: map<string, Json>) {
    forall i :: 0 <= i < |properties| && properties[i].key in fields ==>
      Accepts(n, defs, properties[i].schema, fields[properties[i].key])
  }

  lemma ObjectIsAccepted(n: nat, defs: Definitions, s: Schema, v: Json)
    requires IsObjectNode(s)
    requires forall key :: key in s.required ==> Declared(s, key)
    requires v.Object? && v.fields.Keys == (set key | key in s.required)
    requires FieldsAccepted(n, defs, s.properties, v.fields)
    ensures Accepts(n, defs, s, v)
  {
    assert MembersAccept(n, defs, s, v);
    AcceptsParts(n, defs, s, v);
  }

  lemma ArrayIsAccepted(n: nat, defs: Definitions, s: Schema, v: Json, item: Json)
    requires s.ref.None? && s.const_.None? && s.enum_.NoEnum? && s.oneOf.NoOneOf? && s.kind == Some(ArrayKind)
    requires v.Array? && s.items.Items? && Local(s, v)
    requires (forall i :: 0 <= i < |v.items| ==> v.items[i] == item) && Accepts(n, defs, s.items.schema, item)
    ensures Accepts(n, defs, s, v)
  {
    assert ItemsAccept(n, defs, s, v);
    AcceptsParts(n, defs, s, v);
  }

  /** What a required member must look up, its object must look up too. */
  lemma MemberRefs(s: Schema, i: nat)
    requires IsObjectNode(s) && i < |s.properties| && s.properties[i].key in s.required
    ensures MustRefs(s.properties[i].schema) <= MustRefs(s)
  {
  }

  /** The last of the first `count` members is the example of its own property. */
  lemma LastMember(m: nat, defs: Definitions, s: Schema, count: nat) returns (i: nat)
    requires 0 < count <= |s.required| && ExampleMembers(m, defs, s, count).Value?
    requires forall key :: key in s.required ==> Declared(s, key)
    ensures ExampleMembers(m, defs, s, count - 1).Value?
    ensures i < |s.properties| && s.properties[i].key == s.required[count - 1]
    ensures Example(m, defs, s.properties[i].schema).Value?
    ensures ExampleMembers(m, defs, s, count).value ==
      ExampleMembers(m, defs, s, count - 1).value[s.properties[i].key := Example(m, defs, s.properties[i].schema).value]
  {
    assert Declared(s, s.required[count - 1]);
    i := Find(s.properties, s.required[count - 1]).value;
  }

  lemma {:induction false} MembersHaveKeys(m: nat, defs: Definitions, s: Schema, count: nat)
    requires count <= |s.required| && ExampleMembers(m, defs, s, count).Value?
    requires forall key :: key in s.required ==> Declared(s, key)
    ensures ExampleMembers(m, defs, s, count).value.Keys == (set key | key in s.required[..count])
    decreases count
  {
    if count > 0 {
      var i := LastMember(m, defs, s, count);
      MembersHaveKeys(m, defs, s, count - 1);
      assert s.required[..count] == s.required[..count - 1] + [s.required[count - 1]];
    }
  }

  lemma {:induction false} MembersAreAccepted(m: nat, k: nat, defs: Definitions, names: set<string>, s: Schema)
    requires Ready(k, defs, s) && MustRefs(s) <= names && ReadyWithin(k, defs, names) && IsObjectNode(s)
    requires Example(m, defs, s).Value? && LeavesReady(m, defs, s)
    ensures Accepts(m + k, defs, s, Example(m, defs, s).value)
    decreases m, s, 0, 0
  {
    ExampleHasRequiredKeys(m, k, defs, s);
    var v := Example(m, defs, s).value;
    forall i | 0 <= i < |s.properties| && s.properties[i].key in v.fields
      ensures Accepts(m + k, defs, s.properties[i].schema, v.fields[s.properties[i].key])
    {
      MemberIsExample(m, k, defs, s, i);
      MemberRefs(s, i);
      ExampleIsAccepted(m, k, defs, names, s.properties[i].schema);
    }
    ObjectIsAccepted(m + k, defs, s, v);
  }

  // ---------------------------------------------------------------- what the example is, ready leaves or not

  lemma {:induction false} MembersReturn(m: nat, defs: Definitions, s: Schema, count: nat, c: nat, i: nat)
    requires c < count <= |s.required| && i < |s.properties| && s.properties[i].key == s.required[c]
    requires DistinctKeys(s.properties) && ExampleMembers(m, defs, s, count).Value?
    ensures Example(m, defs, s.properties[i].schema).Value?
    ensures s.properties[i].key in ExampleMembers(m, defs, s, count).value
    ensures ExampleMembers(m, defs, s, count).value[s.properties[i].key] ==
      Example(m, defs, s.properties[i].schema).value
    decreases count
  {
    assert Find(s.properties, s.required[c]) == Some(i);
    if c < count - 1 {
      MembersReturn(m, defs, s, count - 1, c, i);
      if s.required[count - 1] == s.required[c] {
        assert Find(s.properties, s.required[count - 1]) == Some(i);
      }
    }
  }

  /** The member at a required key is the example of its property. */
  lemma MemberIsExample(m: nat, k: nat, defs: Definitions, s: Schema, i: nat)
    requires IsObjectNode(s) && ReadyMembers(k, defs, s) && Example(m, defs, s).Value?
    requires i < |s.properties| && s.properties[i].key in s.required
    ensures var v := Example(m, defs, s).value;
      v.Object? && s.properties[i].key in v.fields && Example(m, defs, s.properties[i].schema).Value? &&
      v.fields[s.properties[i].key] == Example(m, defs, s.properties[i].schema).value
  {
    var c :| 0 <= c < |s.required| && s.required[c] == s.properties[i].key;
    MembersReturn(m, defs, s, |s.required|, c, i);
  }

  lemma ExampleHasRequiredKeys(m: nat, k: nat, defs: Definitions, s: Schema)
    requires IsObjectNode(s) && ReadyMembers(k, defs, s) && Example(m, defs, s).Value?
    ensures var v := Example(m, defs, s).value; v.Object? && v.fields.Keys == (set key | key in s.required)
  {
    MembersHaveKeys(m, defs, s, |s.required|);
    assert s.required[..|s.required|] == s.required;
  }

  lemma {:induction false} ExampleHasKind(
    m: nat, j: nat, k: nat, defs: Definitions, names: set<string>, s: Schema)
    requires Ready(k, defs, s) && MustRefs(s) <= names && ReadyWithin(k, defs, names) && Example(m, defs, s).Value?
    ensures KindOf(Example(m, defs, s).value) in KindsOf(j, defs, s)
    decreases m, s
  {
    if s.ref.Some? {
      if j > 0 {
        ExampleHasKind(m - 1, j - 1, k, defs, names, defs[Target(s.ref.value)]);
      }
    } else if s.oneOf.OneOf? {
      ExampleHasKind(m, j, k, defs, names, s.oneOf.branches[0]);
    }
  }

  lemma {:induction false} ExampleIsConstant(
    m: nat, j: nat, k: nat, defs: Definitions, names: set<string>, s: Schema)
    requires Ready(k, defs, s) && MustRefs(s) <= names && ReadyWithin(k, defs, names) && Example(m, defs, s).Value?
    requires Constants(j, defs, s).Some?
    ensures Example(m, defs, s).value in Constants(j, defs, s).value
    decreases m, s
  {
    if s.ref.Some? {
      ExampleIsConstant(m - 1, j - 1, k, defs, names, defs[Target(s.ref.value)]);
    } else if s.oneOf.OneOf? {
      ExampleIsConstant(m, j, k, defs, names, s.oneOf.branches[0]);
    }
  }

  lemma {:induction false} ExampleHasTag(
    m: nat, j: nat, k: nat, defs: Definitions, names: set<string>, s: Schema, key: string)
    requires Ready(k, defs, s) && MustRefs(s) <= names && ReadyWithin(k, defs, names) && Example(m, defs, s).Value?
    requires Tags(j, defs, s, key).Some?
    ensures Tagged(Example(m, defs, s).value, key, Tags(j, defs, s, key).value)
    decreases m, s
  {
    if s.ref.Some? {
      ExampleHasTag(m - 1, j - 1, k, defs, names, defs[Target(s.ref.value)], key);
    } else if s.oneOf.OneOf? {
      ExampleHasTag(m, j, k, defs, names, s.oneOf.branches[0], key);
    } else {
      var i :|
        0 <= i < |s.properties| && s.properties[i].key == key && Constants(j, defs, s.properties[i].schema).Some? &&
        Tags(j, defs, s, key) == Constants(j, defs, s.properties[i].schema);
      MemberIsExample(m, k, defs, s, i);
      MemberRefs(s, i);
      ExampleIsConstant(m, j, k, defs, names, s.properties[i].schema);
    }
  }

  lemma {:induction false} ExampleHoldsKey(
    m: nat, j: nat, k: nat, defs: Definitions, names: set<string>, s: Schema, key: string)
    requires Ready(k, defs, s) && MustRefs(s) <= names && ReadyWithin(k, defs, names) && Example(m, defs, s).Value?
    ensures Requires(j, defs, s, key) ==> HoldsKey(Example(m, defs, s).value, key)
    ensures Forbids(j, defs, s, key) ==> !HoldsKey(Example(m, defs, s).value, key)
    decreases m, s
  {
    if s.ref.Some? {
      if j > 0 {
        ExampleHoldsKey(m - 1, j - 1, k, defs, names, defs[Target(s.ref.value)], key);
      }
    } else if s.oneOf.OneOf? {
      ExampleHoldsKey(m, j, k, defs, names, s.oneOf.branches[0], key);
    } else if IsObjectNode(s) {
      ExampleHasRequiredKeys(m, k, defs, s);
    }
  }

  /** The example of a `oneOf` is rejected by every branch but the first, whether or not the first accepts it. */
  lemma OtherBranchRejects(m: nat, k: nat, defs: Definitions, names: set<string>, a: Schema, b: Schema)
    requires Ready(k, defs, a) && MustRefs(a) <= names && ReadyWithin(k, defs, names) && Example(m, defs, a).Value?
    requires Apart(k, defs, a, b)
    ensures Rejects(k, defs, b, Example(m, defs, a).value)
  {
    var v := Example(m, defs, a).value;
    if KindsOf(k, defs, a) !! KindsOf(k, defs, b) {
      ExampleHasKind(m, k, k, defs, names, a);
      OtherKindsAreRejected(k, defs, b, v);
    } else if key :| TaggedApart(k, defs, a, b, key) {
      ExampleHasTag(m, k, k, defs, names, a, key);
      OtherTagsAreRejected(k, defs, b, key, v);
    } else {
      var key :| KeyApart(k, defs, a, b, key);
      ExampleHoldsKey(m, k, k, defs, names, a, key);
      if HoldsKey(v, key) {
        WithForbiddenKeyIsRejected(k, defs, b, key, v);
      } else {
        WithoutRequiredKeyIsRejected(k, defs, b, key, v);
      }
    }
  }

  // ---------------------------------------------------------------- only ready leaves give valid examples

  lemma LeafIsReady(n: nat, m: nat, k: nat, defs: Definitions, s: Schema)
    requires Ready(k, defs, s) && Example(m, defs, s).Value? && Accepts(n, defs, s, Example(m, defs, s).value)
    requires s.ref.None? && s.const_.None? && s.enum_.NoEnum? && s.oneOf.NoOneOf?
    requires s.kind != Some(ObjectKind) && s.kind != Some(ArrayKind)
    ensures LeavesReady(m, defs, s)
  {
    if s.kind == Some(StringKind) {
      StringTextIsExact(s);
    }
  }

  lemma {:induction false} BranchIsReady(n: nat, m: nat, k: nat, defs: Definitions, names: set<string>, s: Schema)
    requires Ready(k, defs, s) && MustRefs(s) <= names && ReadyWithin(k, defs, names) && s.oneOf.OneOf?
    requires s.ref.None? && s.const_.None? && s.enum_.NoEnum? && Example(m, defs, s).Value?
    requires Accepts(n, defs, s, Example(m, defs, s).value)
    ensures LeavesReady(m, defs, s)
    decreases m, s, 0
  {
    var v, first := Example(m, defs, s).value, s.oneOf.branches[0];
    assert OneOfAccepts(n, defs, s, v);
    var i :| 0 <= i < |s.oneOf.branches| && Accepts(n, defs, s.oneOf.branches[i], v);
    if i > 0 {
      OtherBranchRejects(m, k, defs, names, first, s.oneOf.branches[i]);
      AcceptedIsNotRejected(n, k, defs, s.oneOf.branches[i], v);
    } else {
      AcceptedHasReadyLeaves(n, m, k, defs, names, first);
    }
  }

  lemma {:induction false} MembersAreReady(n: nat, m: nat, k: nat, defs: Definitions, names: set<string>, s: Schema)
    requires Ready(k, defs, s) && MustRefs(s) <= names && ReadyWithin(k, defs, names) && IsObjectNode(s)
    requires Example(m, defs, s).Value? && Accepts(n, defs, s, Example(m, defs, s).value)
    ensures LeavesReady(m, defs, s)
    decreases m, s, 0
  {
    var v := Example(m, defs, s).value;
    assert MembersAccept(n, defs, s, v);
    forall i | 0 <= i < |s.properties| && s.properties[i].key in s.required
      ensures LeavesReady(m, defs, s.properties[i].schema)
    {
      MemberIsExample(m, k, defs, s, i);
      MemberRefs(s, i);
      AcceptedHasReadyLeaves(n, m, k, defs, names, s.properties[i].schema);
    }
  }

  lemma {:induction false} ItemsAreReady(n: nat, m: nat, k: nat, defs: Definitions, names: set<string>, s: Schema)
    requires Ready(k, defs, s) && MustRefs(s) <= names && ReadyWithin(k, defs, names)
    requires s.ref.None? && s.const_.None? && s.enum_.NoEnum? && s.oneOf.NoOneOf? && s.kind == Some(ArrayKind)
    requires Example(m, defs, s).Value? && Accepts(n, defs, s, Example(m, defs, s).value)
    ensures LeavesReady(m, defs, s)
    decreases m, s, 0
  {
    var v := Example(m, defs, s).value;
    assert ItemsAccept(n, defs, s, v);
    if v.items != [] {
      assert v.items[0] == Example(m, defs, s.items.schema).value;
      AcceptedHasReadyLeaves(n, m, k, defs, names, s.items.schema);
    }
  }

  /** If the example of a ready node is accepted, all its leaves are ready. */
  lemma {:induction false} AcceptedHasReadyLeaves(
    n: nat, m: nat, k: nat, defs: Definitions, names: set<string>, s: Schema)
    requires Ready(k, defs, s) && MustRefs(s) <= names && ReadyWithin(k, defs, names)
    requires Example(m, defs, s).Value? && Accepts(n, defs, s, Example(m, defs, s).value)
    ensures LeavesReady(m, defs, s)
    decreases m, s, 1
  {
    if s.ref.Some? {
      assert RefAccepts(n, defs, s, Example(m, defs, s).value);
      AcceptedHasReadyLeaves(n - 1, m - 1, k, defs, names, defs[Target(s.ref.value)]);
    } else if s.const_.Some? || s.enum_.Enum? {
    } else if s.oneOf.OneOf? {
      BranchIsReady(n, m, k, defs, names, s);
    } else if s.kind == Some(ObjectKind) {
      MembersAreReady(n, m, k, defs, names, s);
    } else if s.kind == Some(ArrayKind) {
      ItemsAreReady(n, m, k, defs, names, s);
    } else {
      LeafIsReady(n, m, k, defs, s);
    }
  }

  // ---------------------------------------------------------------- termination

  type Rank = map<string, nat>

  /** Whatever a definition in `names` must look up is in `names` again. */
  ghost predicate Closed(defs: Definitions, names: set<string>) {
    forall name :: name in names && name in defs ==> MustRefs(defs[name]) <= names
  }

  /** Every definition in `names` ranks above the definitions it must look up. */
  ghost predicate Ranked(rank: Rank, defs: Definitions, names: set<string>) {
    names <= rank.Keys &&
    forall name, other :: name in names && name in defs && other in names && other in MustRefs(defs[name]) ==>
      rank[other] < rank[name]
  }

  ghost predicate RefsBelow(rank: Rank, s: Schema, m: nat) {
    forall name :: name in MustRefs(s) && name in rank ==> rank[name] < m
  }

  lemma {:induction false} RankedExampleTerminates(rank: Rank, m: nat, defs: Definitions, names: set<string>, s: Schema)
    requires Ranked(rank, defs, names) && Closed(defs, names) && MustRefs(s) <= names && RefsBelow(rank, s, m)
    ensures !Example(m, defs, s).TooDeep?
    decreases m, s, |s.required| + 1
  {
    if s.ref.Some? {
      var name := Target(s.ref.value);
      if name in defs {
        assert rank[name] < m;
        RankedExampleTerminates(rank, m - 1, defs, names, defs[name]);
      }
    } else if s.const_.Some? || s.enum_.Enum? {
    } else if s.oneOf.OneOf? {
      if s.oneOf.branches != [] {
        RankedExampleTerminates(rank, m, defs, names, s.oneOf.branches[0]);
      }
    } else if s.kind == Some(ObjectKind) {
      RankedMembersTerminate(rank, m, defs, names, s, |s.required|);
    } else if s.kind == Some(ArrayKind) && s.minItems.Some? && s.minItems.value > 0 && s.items.Items? {
      RankedExampleTerminates(rank, m, defs, names, s.items.schema);
    }
  }

  lemma {:induction false} RankedMembersTerminate(
    rank: Rank, m: nat, defs: Definitions, names: set<string>, s: Schema, count: nat)
    requires Ranked(rank, defs, names) && Closed(defs, names) && MustRefs(s) <= names && RefsBelow(rank, s, m)
    requires count <= |s.required|
    requires IsObjectNode(s)
    ensures !ExampleMembers(m, defs, s, count).TooDeep?
    decreases m, s, count
  {
    if count > 0 {
      RankedMembersTerminate(rank, m, defs, names, s, count - 1);
      match Find(s.properties, s.required[count - 1])
      case None =>
      case Some(i) =>
        MemberRefs(s, i);
        RankedExampleTerminates(rank, m, defs, names, s.properties[i].schema);
    }
  }

  /** On ready nodes the only way not to return a value is to need more references. */
  lemma {:induction false} ReadyExampleNeverFails(m: nat, k: nat, defs: Definitions, names: set<string>, s: Schema)
    requires Ready(k, defs, s) && MustRefs(s) <= names && ReadyWithin(k, defs, names)
    ensures !Example(m, defs, s).Failed?
    decreases m, s, |s.required| + 1
  {
    if s.ref.Some? {
      if m > 0 {
        ReadyExampleNeverFails(m - 1, k, defs, names, defs[Target(s.ref.value)]);
      }
    } else if s.const_.Some? || s.enum_.Enum? {
    } else if s.oneOf.OneOf? {
      ReadyExampleNeverFails(m, k, defs, names, s.oneOf.branches[0]);
    } else if s.kind == Some(ObjectKind) {
      ReadyMembersNeverFail(m, k, defs, names, s, |s.required|);
    } else if s.kind == Some(ArrayKind) && s.minItems.Some? && s.minItems.value > 0 {
      ReadyExampleNeverFails(m, k, defs, names, s.items.schema);
    }
  }

  lemma {:induction false} ReadyMembersNeverFail(
    m: nat, k: nat, defs: Definitions, names: set<string>, s: Schema, count: nat)
    requires Ready(k, defs, s) && MustRefs(s) <= names && ReadyWithin(k, defs, names) && count <= |s.required|
    requires IsObjectNode(s)
    ensures !ExampleMembers(m, defs, s, count).Failed?
    decreases m, s, count
  {
    if count > 0 {
      ReadyMembersNeverFail(m, k, defs, names, s, count - 1);
      assert Declared(s, s.required[count - 1]);
      var i := Find(s.properties, s.required[count - 1]).value;
      MemberRefs(s, i);
      ReadyExampleNeverFails(m, k, defs, names, s.properties[i].schema);
    }
  }

  ghost predicate Returns(m: nat, defs: Definitions, name: string)
    requires name in defs
  {
    Example(m, defs, defs[name]).Value?
  }

  /** Returning within `m` nested references leaves `m - 1` for every reference that was forced. */
  lemma {:induction false} ReturningUsesReferences(
    m: nat, k: nat, defs: Definitions, names: set<string>, s: Schema, name: string)
    requires Ready(k, defs, s) && MustRefs(s) <= names && ReadyWithin(k, defs, names)
    requires Example(m, defs, s).Value? && name in MustRefs(s)
    ensures m > 0 && name in defs && Returns(m - 1, defs, name)
    decreases s
  {
    if s.ref.Some? {
    } else if s.oneOf.OneOf? {
      ReturningUsesReferences(m, k, defs, names, s.oneOf.branches[0], name);
    } else if s.kind == Some(ObjectKind) {
      var i :| 0 <= i < |s.properties| && s.properties[i].key in s.required && name in MustRefs(s.properties[i].schema);
      var c :| 0 <= c < |s.required| && s.required[c] == s.properties[i].key;
      MembersReturn(m, defs, s, |s.required|, c, i);
      MemberRefs(s, i);
      ReturningUsesReferences(m, k, defs, names, s.properties[i].schema, name);
    } else {
      ReturningUsesReferences(m, k, defs, names, s.items.schema, name);
    }
  }

  ghost function Depth(defs: Definitions, name: string): (d: nat)
    requires name in defs && exists m: nat :: Returns(m, defs, name)
    ensures Returns(d, defs, name) && forall j: nat :: j < d ==> !Returns(j, defs, name)
  {
    var m: nat :| Returns(m, defs, name);
    LeastBudget(defs, name, m);
    var d: nat :| Returns(d, defs, name) && forall j: nat :: j < d ==> !Returns(j, defs, name);
    d
  }

  lemma {:induction false} LeastBudget(defs: Definitions, name: string, m: nat)
    requires name in defs && Returns(m, defs, name)
    ensures exists d: nat :: Returns(d, defs, name) && forall j: nat :: j < d ==> !Returns(j, defs, name)
  {
    if j: nat :| j < m && Returns(j, defs, name) {
      LeastBudget(defs, name, j);
    }
  }

  /** Ready definitions all have examples exactly when their forced references can be ranked. */
  lemma ExamplesTerminateIffRanked(k: nat, defs: Definitions, names: set<string>)
    requires ReadyWithin(k, defs, names)
    ensures (exists rank :: Ranked(rank, defs, names)) <==>
            (forall name :: name in names ==> exists m: nat :: Returns(m, defs, name))
  {
    if rank :| Ranked(rank, defs, names) {
      forall name | name in names ensures exists m: nat :: Returns(m, defs, name) {
        RankedExampleTerminates(rank, rank[name], defs, names, defs[name]);
        ReadyExampleNeverFails(rank[name], k, defs, names, defs[name]);
        assert Returns(rank[name], defs, name);
      }
    }
    if forall name :: name in names ==> exists m: nat :: Returns(m, defs, name) {
      var rank: Rank := map name | name in names :: Depth(defs, name);
      forall name, other | name in names && other in names && other in MustRefs(defs[name])
        ensures rank[other] < rank[name]
      {
        ReturningUsesReferences(rank[name], k, defs, names, defs[name], other);
        assert !(rank[name] - 1 < rank[other]);
      }
      assert Ranked(rank, defs, names);
    }
  }

  /**
    * `example` returns for every node that is ready together with the definitions it must look up, when these
    * can be ranked; and what it returns is valid if and only if every string and number it visits is ready.
    * Other definitions do not matter.
    */
  lemma ExampleIsCorrect(rank: Rank, m: nat, k: nat, defs: Definitions, names: set<string>, s: Schema)
    requires Ready(k, defs, s) && MustRefs(s) <= names && ReadyWithin(k, defs, names)
    requires Ranked(rank, defs, names) && RefsBelow(rank, s, m)
    ensures Example(m, defs, s).Value?
    ensures Valid(defs, s, Example(m, defs, s).value) <==> LeavesReady(m, defs, s)
  {
    RankedExampleTerminates(rank, m, defs, names, s);
    ReadyExampleNeverFails(m, k, defs, names, s);
    if LeavesReady(m, defs, s) {
      ExampleIsAccepted(m, k, defs, names, s);
    }
    if n: nat :| Accepts(n, defs, s, Example(m, defs, s).value) {
      AcceptedHasReadyLeaves(n, m, k, defs, names, s);
    }
  }
}
