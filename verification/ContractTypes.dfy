/** The part of TypeScript's type language that the generator emits, and which JSON values inhabit it. */
module TypeScript {
  import opened Json

  datatype Field = Field(key: string, optional: bool, typ: Type)

  datatype Type =
    | Alias(name: string)
    | Union(members: seq<Type>)
    | Literal(value: Json)
    | NumberType
    | BooleanType
    | StringType
    | NullType
    | ArrayOf(element: Type)
    | IndexOf(value_: Type)
    | Record(fields: seq<Field>)
    | EmptyRecord

  type Declarations = map<string, Type>

  /**
    * `v` inhabits `t`, unfolding at most `n` nested aliases. Aliases are read inductively,
    * so a type that only refers to itself has no inhabitant.
    */
  ghost predicate Member(n: nat, types: Declarations, t: Type, v: Json)
    decreases n, t
  {
    match t
    case Alias(name) => name in types && n > 0 && Member(n - 1, types, types[name], v)
    case Union(members) => exists i :: 0 <= i < |members| && Member(n, types, members[i], v)
    case Literal(x) => v == x
    case NumberType => v.Number?
    case BooleanType => v.Bool?
    case StringType => v.String?
    case NullType => v.Null?
    case ArrayOf(element) => v.Array? && forall i :: 0 <= i < |v.items| ==> Member(n, types, element, v.items[i])
    case IndexOf(value) => v.Object? && forall key :: key in v.fields ==> Member(n, types, value, v.fields[key])
    case Record(fields) =>
      v.Object? && forall i :: 0 <= i < |fields| ==>
        if fields[i].key in v.fields then Member(n, types, fields[i].typ, v.fields[fields[i].key])
        else fields[i].optional
    case EmptyRecord => v.Object? && v.fields == map[]
  }

  /** `v` inhabits `t`, however many aliases have to be unfolded. */
  ghost predicate Inhabits(types: Declarations, t: Type, v: Json) {
    exists n: nat :: Member(n, types, t, v)
  }

  /** Unfolding more aliases never takes a member away. */
  lemma {:induction false} MembershipPersists(n: nat, m: nat, types: Declarations, t: Type, v: Json)
    requires n <= m && Member(n, types, t, v)
    ensures Member(m, types, t, v)
    decreases n, t
  {
    match t
    case Alias(name) => MembershipPersists(n - 1, m - 1, types, types[name], v);
    case Union(members) =>
      var i :| 0 <= i < |members| && Member(n, types, members[i], v);
      MembershipPersists(n, m, types, members[i], v);
    case ArrayOf(element) =>
      forall i | 0 <= i < |v.items| ensures Member(m, types, element, v.items[i]) {
        MembershipPersists(n, m, types, element, v.items[i]);
      }
    case IndexOf(value) =>
      forall key | key in v.fields ensures Member(m, types, value, v.fields[key]) {
        MembershipPersists(n, m, types, value, v.fields[key]);
      }
    case Record(fields) =>
      forall i | 0 <= i < |fields| && fields[i].key in v.fields
        ensures Member(m, types, fields[i].typ, v.fields[fields[i].key])
      {
        MembershipPersists(n, m, types, fields[i].typ, v.fields[fields[i].key]);
      }
    case _ =>
  }

  /** What holds of each key from some budget on holds of finitely many keys from one budget on. */
  lemma {:induction false} CommonBudget(keys: set<string>, holds: (nat, string) -> bool) returns (n: nat)
    requires forall key :: key in keys ==> exists m: nat :: holds(m, key)
    requires forall key, m: nat, k: nat :: key in keys && m <= k && holds(m, key) ==> holds(k, key)
    ensures forall key :: key in keys ==> holds(n, key)
    decreases keys
  {
    if keys == {} {
      n := 0;
    } else {
      var key :| key in keys;
      var k := CommonBudget(keys - {key}, holds);
      var m: nat :| holds(m, key);
      n := if k < m then m else k;
      forall other | other in keys ensures holds(n, other) {
        assert other != key ==> other in keys - {key} && holds(k, other);
      }
    }
  }
}

/** `typescript` in tools/contracts/generate.py: from schema nodes to TypeScript types. */
module ContractTypes {
  import opened Json
  import opened Results
  import opened JsonSchema
  import opened TypeScript

  datatype Problem = MissingKeyword(keyword: string) | UnsupportedType(kind: string)

  function Translate(s: Schema): (r: Result<Type, Problem>)
    decreases s, 1
  {
    if s.ref.Some? then Ok(Alias(Target(s.ref.value)))
    else if s.oneOf.OneOf? then
      var members :- TranslateAll(s.oneOf.branches);
      Ok(Union(members))
    else if s.const_.Some? then Ok(Literal(s.const_.value))
    else if s.enum_.Enum? then Ok(Union(Literals(s.enum_.values)))
    else if s.kind.None? then Err(MissingKeyword("type"))
    else match s.kind.value
      case IntegerKind => Ok(NumberType)
      case NumberKind => Ok(NumberType)
      case BooleanKind => Ok(BooleanType)
      case StringKind => Ok(StringType)
      case NullKind => Ok(NullType)
      case ArrayKind =>
        if s.items.NoItems? then Err(MissingKeyword("items"))
        else
          var element :- Translate(s.items.schema);
          Ok(ArrayOf(element))
      case ObjectKind => TranslateObject(s)
      case UnknownKind(name) => Err(UnsupportedType(name))
  }

  function TranslateObject(s: Schema): (r: Result<Type, Problem>)
    decreases s, 0
  {
    if s.additional.Each? then
      var value :- Translate(s.additional.schema);
      Ok(IndexOf(value))
    else
      var fields :- TranslateFields(s.properties, s.required);
      if fields == [] && s.additional == Allowed(false) then Ok(EmptyRecord) else Ok(Record(fields))
  }

  function Literals(values: seq<Json>): (members: seq<Type>)
    ensures |members| == |values| && forall i :: 0 <= i < |values| ==> members[i] == Literal(values[i])
  {
    seq(|values|, i requires 0 <= i < |values| => Literal(values[i]))
  }

  function TranslateAll(branches: seq<Schema>): (r: Result<seq<Type>, Problem>)
    ensures r.Ok? ==> |r.value| == |branches|
    ensures r.Ok? ==> forall i :: 0 <= i < |branches| ==> Translate(branches[i]) == Ok(r.value[i])
    decreases branches, 2
  {
    if branches == [] then Ok([])
    else
      var first :- Translate(branches[0]);
      var rest :- TranslateAll(branches[1..]);
      Ok([first] + rest)
  }

  function TranslateFields(properties: seq<Property>, required: seq<string>): (r: Result<seq<Field>, Problem>)
    ensures r.Ok? ==> |r.value| == |properties|
    ensures r.Ok? ==>
      forall i :: 0 <= i < |properties| ==>
        && r.value[i].key == properties[i].key
        && r.value[i].optional == (properties[i].key !in required)
        && Translate(properties[i].schema) == Ok(r.value[i].typ)
    decreases properties, 2
  {
    if properties == [] then Ok([])
    else
      var p := properties[0];
      var typ :- Translate(p.schema);
      var rest :- TranslateFields(properties[1..], required);
      Ok([Field(p.key, p.key !in required, typ)] + rest)
  }

  // ---------------------------------------------------------------- which nodes have a type

  /**
    * The nodes that have a type, by their keywords: a reference; alternatives that all have one; a constant or an
    * enumeration; or one of the seven kinds, with elements or members that have one.
    */
  predicate Translatable(s: Schema)
    decreases s, 1
  {
    || s.ref.Some?
    || (s.oneOf.OneOf? && forall i :: 0 <= i < |s.oneOf.branches| ==> Translatable(s.oneOf.branches[i]))
    || (s.oneOf.NoOneOf? && (s.const_.Some? || s.enum_.Enum? || (s.kind.Some? && TranslatableKind(s))))
  }

  predicate TranslatableKind(s: Schema)
    requires s.kind.Some?
    decreases s, 0
  {
    && !s.kind.value.UnknownKind?
    && (s.kind.value.ArrayKind? ==> s.items.Items? && Translatable(s.items.schema))
    && (s.kind.value.ObjectKind? && s.additional.Each? ==> Translatable(s.additional.schema))
    && (s.kind.value.ObjectKind? && !s.additional.Each? ==>
          forall i :: 0 <= i < |s.properties| ==> Translatable(s.properties[i].schema))
  }

  lemma {:induction false} AllTranslateIff(branches: seq<Schema>)
    ensures TranslateAll(branches).Ok? <==> forall i :: 0 <= i < |branches| ==> Translatable(branches[i])
    decreases branches, 2
  {
    if branches != [] {
      TranslatesIff(branches[0]);
      AllTranslateIff(branches[1..]);
      assert forall i :: 1 <= i < |branches| ==> branches[i] == branches[1..][i - 1];
    }
  }

  lemma {:induction false} FieldsTranslateIff(properties: seq<Property>, required: seq<string>)
    ensures TranslateFields(properties, required).Ok? <==>
      forall i :: 0 <= i < |properties| ==> Translatable(properties[i].schema)
    decreases properties, 2
  {
    if properties != [] {
      TranslatesIff(properties[0].schema);
      FieldsTranslateIff(properties[1..], required);
      assert forall i :: 1 <= i < |properties| ==> properties[i] == properties[1..][i - 1];
    }
  }

  /** A node is given a type exactly when its keywords say that it has one. */
  lemma {:induction false} TranslatesIff(s: Schema)
    ensures Translate(s).Ok? <==> Translatable(s)
    decreases s, 1
  {
    if s.ref.Some? {
    } else if s.oneOf.OneOf? {
      AllTranslateIff(s.oneOf.branches);
    } else if s.const_.Some? || s.enum_.Enum? || s.kind.None? {
    } else if s.kind.value.ArrayKind? && s.items.Items? {
      TranslatesIff(s.items.schema);
    } else if s.kind.value.ObjectKind? {
      if s.additional.Each? {
        TranslatesIff(s.additional.schema);
      } else {
        FieldsTranslateIff(s.properties, s.required);
      }
    }
  }

  /** The aliases that `main` emits: one per definition, translated from it. */
  ghost predicate Declares(types: Declarations, defs: Definitions) {
    types.Keys == defs.Keys && forall name :: name in defs ==> Translate(defs[name]) == Ok(types[name])
  }

  // ---------------------------------------------------------------- what a type can say

  /**
    * The constraints of a schema that a TypeScript type can express, read off the schema keyword
    * by keyword: counts, lengths, ranges, formats, extra members and the exclusiveness of `oneOf`
    * are dropped.
    */
  ghost predicate Shaped(n: nat, defs: Definitions, s: Schema, v: Json)
    decreases n, s, 2
  {
    && RefShaped(n, defs, s, v)
    && OneOfShaped(n, defs, s, v)
    && (s.const_.Some? ==> v == s.const_.value)
    && (s.enum_.Enum? ==> v in s.enum_.values)
    && (s.kind.Some? ==> KindShaped(n, defs, s, v))
  }

  ghost predicate RefShaped(n: nat, defs: Definitions, s: Schema, v: Json)
    decreases n, s, 1
  {
    s.ref.Some? ==>
      Target(s.ref.value) in defs && n > 0 && Shaped(n - 1, defs, defs[Target(s.ref.value)], v)
  }

  ghost predicate OneOfShaped(n: nat, defs: Definitions, s: Schema, v: Json)
    decreases n, s, 1
  {
    s.oneOf.OneOf? ==>
      exists i :: 0 <= i < |s.oneOf.branches| && Shaped(n, defs, s.oneOf.branches[i], v)
  }

  ghost predicate KindShaped(n: nat, defs: Definitions, s: Schema, v: Json)
    requires s.kind.Some?
    decreases n, s, 1
  {
    match s.kind.value
    case IntegerKind => v.Number?
    case ArrayKind => v.Array? && (s.items.Items? ==>
      forall i :: 0 <= i < |v.items| ==> Shaped(n, defs, s.items.schema, v.items[i]))
    case ObjectKind => v.Object? && MembersShaped(n, defs, s, v.fields)
    case kind => KindAccepts(kind, v)
  }

  ghost predicate MembersShaped(n: nat, defs: Definitions, s: Schema, fields: map<string, Json>)
    decreases n, s, 0
  {
    && (forall i :: 0 <= i < |s.properties| ==>
          if s.properties[i].key in fields
          then Shaped(n, defs, s.properties[i].schema, fields[s.properties[i].key])
          else s.properties[i].key !in s.required)
    && (s.additional.Each? ==>
          forall key :: key in fields ==> Shaped(n, defs, s.additional.schema, fields[key]))
    && (s.properties == [] && s.additional == Allowed(false) ==> fields == map[])
  }

  // ---------------------------------------------------------------- the supported fragment

  /** A map schema declares no members of its own, here and below. */
  predicate MapSafe(s: Schema) {
    && (s.additional.Each? ==> s.properties == [] && MapSafe(s.additional.schema))
    && (s.oneOf.OneOf? ==> forall i :: 0 <= i < |s.oneOf.branches| ==> MapSafe(s.oneOf.branches[i]))
    && (s.items.Items? ==> MapSafe(s.items.schema))
    && (forall i :: 0 <= i < |s.properties| ==> MapSafe(s.properties[i].schema))
  }

  predicate Scalar(v: Json) {
    !v.Array? && !v.Object?
  }

  /**
    * Nodes whose leading keyword decides the shape: a reference or a `oneOf` stands alone,
    * and literals are scalars of the stated type.
    */
  predicate Plain(s: Schema) {
    && (s.ref.Some? ==> s.oneOf.NoOneOf? && s.const_.None? && s.enum_.NoEnum? && s.kind.None?)
    && (s.oneOf.OneOf? ==>
          s.const_.None? && s.enum_.NoEnum? && s.kind.None? &&
          forall i :: 0 <= i < |s.oneOf.branches| ==> Plain(s.oneOf.branches[i]))
    && (s.const_.Some? ==>
          s.enum_.NoEnum? && (s.kind.Some? ==> Scalar(s.const_.value) && KindAccepts(s.kind.value, s.const_.value)))
    && (s.enum_.Enum? && s.kind.Some? ==>
          forall i :: 0 <= i < |s.enum_.values| ==>
            Scalar(s.enum_.values[i]) && KindAccepts(s.kind.value, s.enum_.values[i]))
    && (s.additional.Each? ==> s.properties == [] && Plain(s.additional.schema))
    && (s.items.Items? ==> Plain(s.items.schema))
    && (forall i :: 0 <= i < |s.properties| ==> Plain(s.properties[i].schema))
  }

  // ---------------------------------------------------------------- a valid value has the shape

  lemma {:induction false} AcceptedIsShaped(n: nat, defs: Definitions, s: Schema, v: Json)
    requires MapSafe(s) && (forall name :: name in defs ==> MapSafe(defs[name]))
    requires Accepts(n, defs, s, v)
    ensures Shaped(n, defs, s, v)
    decreases n, s, 1
  {
    assert RefAccepts(n, defs, s, v) && OneOfAccepts(n, defs, s, v);
    if s.ref.Some? {
      AcceptedIsShaped(n - 1, defs, defs[Target(s.ref.value)], v);
    }
    if s.oneOf.OneOf? {
      var i :| 0 <= i < |s.oneOf.branches| && Accepts(n, defs, s.oneOf.branches[i], v);
      AcceptedIsShaped(n, defs, s.oneOf.branches[i], v);
    }
    if s.kind.Some? {
      AcceptedKind(n, defs, s, v);
    }
  }

  lemma {:induction false} AcceptedKind(n: nat, defs: Definitions, s: Schema, v: Json)
    requires MapSafe(s) && (forall name :: name in defs ==> MapSafe(defs[name]))
    requires s.kind.Some? && Local(s, v) && ItemsAccept(n, defs, s, v) && MembersAccept(n, defs, s, v)
    ensures KindShaped(n, defs, s, v)
    decreases n, s, 0
  {
    if v.Array? && s.items.Items? {
      forall i | 0 <= i < |v.items| ensures Shaped(n, defs, s.items.schema, v.items[i]) {
        AcceptedIsShaped(n, defs, s.items.schema, v.items[i]);
      }
    }
    if v.Object? {
      forall i | 0 <= i < |s.properties| && s.properties[i].key in v.fields
        ensures Shaped(n, defs, s.properties[i].schema, v.fields[s.properties[i].key])
      {
        AcceptedIsShaped(n, defs, s.properties[i].schema, v.fields[s.properties[i].key]);
      }
      if s.additional.Each? {
        forall key | key in v.fields ensures Shaped(n, defs, s.additional.schema, v.fields[key]) {
          AcceptedIsShaped(n, defs, s.additional.schema, v.fields[key]);
        }
      }
    }
  }

  // ---------------------------------------------------------------- the shape is the type

  predicate AllPlain(defs: Definitions) {
    forall name :: name in defs ==> Plain(defs[name])
  }

  predicate AllMapSafe(defs: Definitions) {
    forall name :: name in defs ==> MapSafe(defs[name])
  }

  /** A shaped value inhabits the type, and on plain schemas nothing else does. */
  ghost predicate Agree(n: nat, defs: Definitions, types: Declarations, s: Schema, t: Type, v: Json) {
    && (Shaped(n, defs, s, v) ==> Member(n, types, t, v))
    && (Plain(s) && AllPlain(defs) && Member(n, types, t, v) ==> Shaped(n, defs, s, v))
  }

  lemma {:induction false} ShapeAgreesWithType(
    n: nat, defs: Definitions, types: Declarations, s: Schema, t: Type, v: Json)
    requires Declares(types, defs) && Translate(s) == Ok(t)
    ensures Agree(n, defs, types, s, t, v)
    decreases n, s, 2
  {
    if s.ref.Some? {
      AliasAgrees(n, defs, types, s, v);
    } else if s.oneOf.OneOf? {
      BranchesAgree(n, defs, types, s, t.members, v);
    } else if s.const_.Some? {
    } else if s.enum_.Enum? {
      LiteralsAgree(n, types, s.enum_.values, v);
    } else {
      KindAgrees(n, defs, types, s, t, v);
    }
  }

  lemma {:induction false} AliasAgrees(n: nat, defs: Definitions, types: Declarations, s: Schema, v: Json)
    requires Declares(types, defs) && s.ref.Some?
    ensures RefShaped(n, defs, s, v) ==> Member(n, types, Alias(Target(s.ref.value)), v)
    ensures AllPlain(defs) && Member(n, types, Alias(Target(s.ref.value)), v) ==> RefShaped(n, defs, s, v)
    decreases n, s, 1
  {
    var name := Target(s.ref.value);
    if name in defs && n > 0 {
      ShapeAgreesWithType(n - 1, defs, types, defs[name], types[name], v);
    }
  }

  lemma {:induction false} BranchesAgree(
    n: nat, defs: Definitions, types: Declarations, s: Schema, members: seq<Type>, v: Json)
    requires Declares(types, defs) && s.oneOf.OneOf? && TranslateAll(s.oneOf.branches) == Ok(members)
    ensures OneOfShaped(n, defs, s, v) ==> Member(n, types, Union(members), v)
    ensures Plain(s) && AllPlain(defs) && Member(n, types, Union(members), v) ==> OneOfShaped(n, defs, s, v)
    decreases n, s, 1
  {
    forall i | 0 <= i < |s.oneOf.branches| ensures Agree(n, defs, types, s.oneOf.branches[i], members[i], v) {
      ShapeAgreesWithType(n, defs, types, s.oneOf.branches[i], members[i], v);
    }
  }

  lemma LiteralsAgree(n: nat, types: Declarations, values: seq<Json>, v: Json)
    ensures Member(n, types, Union(Literals(values)), v) <==> v in values
  {
    if v in values {
      var i :| 0 <= i < |values| && values[i] == v;
      assert Member(n, types, Literals(values)[i], v);
    }
  }

  lemma {:induction false} KindAgrees(
    n: nat, defs: Definitions, types: Declarations, s: Schema, t: Type, v: Json)
    requires Declares(types, defs) && Translate(s) == Ok(t)
    requires s.ref.None? && s.oneOf.NoOneOf? && s.const_.None? && s.enum_.NoEnum? && s.kind.Some?
    ensures KindShaped(n, defs, s, v) ==> Member(n, types, t, v)
    ensures Plain(s) && AllPlain(defs) && Member(n, types, t, v) ==> KindShaped(n, defs, s, v)
    decreases n, s, 1
  {
    match s.kind.value
    case ArrayKind =>
      if v.Array? {
        forall i | 0 <= i < |v.items| ensures Agree(n, defs, types, s.items.schema, t.element, v.items[i]) {
          ShapeAgreesWithType(n, defs, types, s.items.schema, t.element, v.items[i]);
        }
      }
    case ObjectKind =>
      if v.Object? {
        MembersAgree(n, defs, types, s, t, v);
      }
    case _ =>
  }

  lemma {:induction false} MembersAgree(
    n: nat, defs: Definitions, types: Declarations, s: Schema, t: Type, v: Json)
    requires Declares(types, defs) && TranslateObject(s) == Ok(t) && v.Object?
    ensures MembersShaped(n, defs, s, v.fields) ==> Member(n, types, t, v)
    ensures Plain(s) && AllPlain(defs) && Member(n, types, t, v) ==> MembersShaped(n, defs, s, v.fields)
    decreases n, s, 0
  {
    if s.additional.Each? {
      forall key | key in v.fields ensures Agree(n, defs, types, s.additional.schema, t.value_, v.fields[key]) {
        ShapeAgreesWithType(n, defs, types, s.additional.schema, t.value_, v.fields[key]);
      }
    } else {
      var fields := TranslateFields(s.properties, s.required).value;
      forall i | 0 <= i < |s.properties| && s.properties[i].key in v.fields
        ensures Agree(n, defs, types, s.properties[i].schema, fields[i].typ, v.fields[s.properties[i].key])
      {
        ShapeAgreesWithType(
          n, defs, types, s.properties[i].schema, fields[i].typ, v.fields[s.properties[i].key]);
      }
    }
  }

  // ---------------------------------------------------------------- main results

  /** Every value valid under a schema node inhabits the type emitted for that node. */
  lemma TranslationIsSound(defs: Definitions, types: Declarations, s: Schema, v: Json)
    requires Declares(types, defs) && Translatable(s)
    requires MapSafe(s) && AllMapSafe(defs)
    requires Valid(defs, s, v)
    ensures Translate(s).Ok? && Inhabits(types, Translate(s).value, v)
  {
    TranslatesIff(s);
    var n: nat :| Accepts(n, defs, s, v);
    AcceptedIsShaped(n, defs, s, v);
    ShapeAgreesWithType(n, defs, types, s, Translate(s).value, v);
  }

  /** On plain schemas the emitted type holds exactly the values of the schema's shape. */
  lemma TranslationIsExact(defs: Definitions, types: Declarations, s: Schema, n: nat, v: Json)
    requires Declares(types, defs) && Translatable(s)
    requires Plain(s) && AllPlain(defs)
    ensures Translate(s).Ok? && (Member(n, types, Translate(s).value, v) <==> Shaped(n, defs, s, v))
  {
    TranslatesIff(s);
    ShapeAgreesWithType(n, defs, types, s, Translate(s).value, v);
  }

  /** Every valid value inhabits the type. */
  ghost predicate Sound(defs: Definitions, types: Declarations, s: Schema, t: Type) {
    forall v :: Valid(defs, s, v) ==> Inhabits(types, t, v)
  }

  /** The values of every declared member inhabit the type `t` of the index signature. */
  ghost predicate MembersFit(defs: Definitions, types: Declarations, s: Schema, t: Type) {
    forall i, x :: 0 <= i < |s.properties| && Valid(defs, s.properties[i].schema, x) ==> Inhabits(types, t, x)
  }

  /** A map schema with declared members and required keys. */
  predicate IsMapNode(s: Schema) {
    && s == EMPTY.(
         kind := Some(ObjectKind), properties := s.properties, required := s.required, additional := s.additional)
    && s.additional.Each?
    && forall i, j :: 0 <= i < j < |s.properties| ==> s.properties[i].key != s.properties[j].key
  }

  /** The schema that decides the value at `key`. */
  ghost function MemberSchema(s: Schema, key: string): Schema
    requires s.additional.Each?
  {
    if Declared(s, key) then
      var i :| 0 <= i < |s.properties| && s.properties[i].key == key;
      s.properties[i].schema
    else s.additional.schema
  }

  lemma DeclaredMemberSchema(s: Schema, i: nat)
    requires IsMapNode(s) && i < |s.properties|
    ensures Declared(s, s.properties[i].key) && MemberSchema(s, s.properties[i].key) == s.properties[i].schema
  {
  }

  /** Every required key can be given some value. */
  ghost predicate Fillable(defs: Definitions, s: Schema)
    requires s.additional.Each?
  {
    forall key :: key in s.required ==> exists x :: Valid(defs, MemberSchema(s, key), x)
  }

  /** An object whose every member fits, and that has the required ones, is accepted. */
  lemma MembersMakeObject(n: nat, defs: Definitions, s: Schema, v: Json)
    requires IsMapNode(s) && v.Object? && forall key :: key in s.required ==> key in v.fields
    requires forall key :: key in v.fields ==> Accepts(n, defs, MemberSchema(s, key), v.fields[key])
    ensures Accepts(n, defs, s, v)
  {
    forall i | 0 <= i < |s.properties| && s.properties[i].key in v.fields
      ensures Accepts(n, defs, s.properties[i].schema, v.fields[s.properties[i].key])
    {
      DeclaredMemberSchema(s, i);
    }
    assert MembersAccept(n, defs, s, v);
    AcceptsParts(n, defs, s, v);
  }

  lemma AcceptedMembers(n: nat, defs: Definitions, s: Schema, v: Json, key: string)
    requires IsMapNode(s) && Accepts(n, defs, s, v) && key in v.fields
    ensures Accepts(n, defs, MemberSchema(s, key), v.fields[key])
  {
    assert MembersAccept(n, defs, s, v);
    if Declared(s, key) {
      var i :| 0 <= i < |s.properties| && s.properties[i].key == key;
      DeclaredMemberSchema(s, i);
    }
  }

  /** A value with the required keys filled and one member of choice. */
  ghost function Filled(defs: Definitions, s: Schema, key: string, x: Json): (v: Json)
    requires s.additional.Each? && Fillable(defs, s)
    ensures v.Object? && key in v.fields && v.fields[key] == x
    ensures forall r :: r in s.required ==> r in v.fields
    ensures forall r :: r in v.fields && r != key ==> Valid(defs, MemberSchema(s, r), v.fields[r])
  {
    var rest := map r | r in s.required :: var y :| Valid(defs, MemberSchema(s, r), y); y;
    Object(rest[key := x])
  }

  /** An object whose every member is valid, and that has the required ones, is valid. */
  lemma ValidMembersMakeValid(defs: Definitions, s: Schema, v: Json)
    requires IsMapNode(s) && v.Object? && forall key :: key in s.required ==> key in v.fields
    requires forall key :: key in v.fields ==> Valid(defs, MemberSchema(s, key), v.fields[key])
    ensures Valid(defs, s, v)
  {
    var holds := (n: nat, key: string) => key in v.fields && Accepts(n, defs, MemberSchema(s, key), v.fields[key]);
    forall key, m: nat, k: nat | key in v.fields && m <= k && holds(m, key) ensures holds(k, key) {
      VerdictsPersist(m, k, defs, MemberSchema(s, key), v.fields[key]);
    }
    forall key | key in v.fields ensures exists m: nat :: holds(m, key) {
      var m: nat :| Accepts(m, defs, MemberSchema(s, key), v.fields[key]);
      assert holds(m, key);
    }
    var n := CommonBudget(v.fields.Keys, holds);
    forall key | key in v.fields ensures Accepts(n, defs, MemberSchema(s, key), v.fields[key]) {
      assert holds(n, key);
    }
    MembersMakeObject(n, defs, s, v);
  }

  /** An object whose every member inhabits `t` inhabits the index signature of `t`. */
  lemma MembersInhabitIndex(types: Declarations, t: Type, v: Json)
    requires v.Object? && forall key :: key in v.fields ==> Inhabits(types, t, v.fields[key])
    ensures Inhabits(types, IndexOf(t), v)
  {
    var holds := (n: nat, key: string) => key in v.fields && Member(n, types, t, v.fields[key]);
    forall key, m: nat, k: nat | key in v.fields && m <= k && holds(m, key) ensures holds(k, key) {
      MembershipPersists(m, k, types, t, v.fields[key]);
    }
    forall key | key in v.fields ensures exists m: nat :: holds(m, key) {
      var m: nat :| Member(m, types, t, v.fields[key]);
      assert holds(m, key);
    }
    var n := CommonBudget(v.fields.Keys, holds);
    forall key | key in v.fields ensures Member(n, types, t, v.fields[key]) {
      assert holds(n, key);
    }
    assert Member(n, types, IndexOf(t), v);
  }

  lemma SoundMeansFit(defs: Definitions, types: Declarations, s: Schema, t: Type)
    requires IsMapNode(s) && Fillable(defs, s) && Sound(defs, types, s, IndexOf(t))
    ensures MembersFit(defs, types, s, t)
  {
    forall i, x | 0 <= i < |s.properties| && Valid(defs, s.properties[i].schema, x) ensures Inhabits(types, t, x) {
      var key := s.properties[i].key;
      var v := Filled(defs, s, key, x);
      DeclaredMemberSchema(s, i);
      ValidMembersMakeValid(defs, s, v);
      var n: nat :| Member(n, types, IndexOf(t), v);
      assert v.fields[key] == x && Member(n, types, t, v.fields[key]);
    }
  }

  lemma FitMeansSound(defs: Definitions, types: Declarations, s: Schema, t: Type)
    requires Declares(types, defs) && AllMapSafe(defs)
    requires IsMapNode(s) && MapSafe(s.additional.schema) && Translate(s.additional.schema) == Ok(t)
    requires MembersFit(defs, types, s, t)
    ensures Sound(defs, types, s, IndexOf(t))
  {
    forall v | Valid(defs, s, v) ensures Inhabits(types, IndexOf(t), v) {
      var n: nat :| Accepts(n, defs, s, v);
      forall key | key in v.fields ensures Inhabits(types, t, v.fields[key]) {
        AcceptedMembers(n, defs, s, v, key);
        if Declared(s, key) {
          var i :| 0 <= i < |s.properties| && s.properties[i].key == key;
          DeclaredMemberSchema(s, i);
        } else {
          TranslatesIff(s.additional.schema);
          TranslationIsSound(defs, types, s.additional.schema, v.fields[key]);
        }
      }
      MembersInhabitIndex(types, t, v);
    }
  }

  lemma UnfillableHasNone(defs: Definitions, s: Schema, v: Json)
    requires IsMapNode(s) && Valid(defs, s, v)
    ensures Fillable(defs, s)
  {
    var n: nat :| Accepts(n, defs, s, v);
    forall key | key in s.required ensures exists x :: Valid(defs, MemberSchema(s, key), x) {
      AcceptedMembers(n, defs, s, v, key);
      assert Valid(defs, MemberSchema(s, key), v.fields[key]);
    }
  }

  /**
    * When a map schema does declare members, the generator drops them: the node's type is sound exactly
    * when the values of each declared member already inhabit the index signature's type, or when some
    * required key can be given no value, so that the node has none either.
    */
  lemma DeclaredMembersOfAMap(defs: Definitions, types: Declarations, s: Schema, t: Type)
    requires Declares(types, defs) && AllMapSafe(defs)
    requires IsMapNode(s) && MapSafe(s.additional.schema) && Translate(s.additional.schema) == Ok(t)
    ensures Sound(defs, types, s, IndexOf(t)) <==> (Fillable(defs, s) ==> MembersFit(defs, types, s, t))
  {
    if Fillable(defs, s) {
      if Sound(defs, types, s, IndexOf(t)) {
        SoundMeansFit(defs, types, s, t);
      }
      if MembersFit(defs, types, s, t) {
        FitMeansSound(defs, types, s, t);
      }
    } else {
      forall v | Valid(defs, s, v) ensures false {
        UnfillableHasNone(defs, s, v);
      }
    }
  }

  /** An input of that family on which soundness fails: a map of numbers with one declared string. */
  lemma MapWithDeclaredMember()
    ensures
      var s := EMPTY.(
        kind := Some(ObjectKind),
        properties := [Property("name", EMPTY.(kind := Some(StringKind)))],
        additional := Each(EMPTY.(kind := Some(NumberKind))));
      var v := Object(map["name" := String("x")]);
      Valid(map[], s, v) && Translate(s) == Ok(IndexOf(NumberType)) &&
      forall types :: !Inhabits(types, IndexOf(NumberType), v)
  {
    var p := Property("name", EMPTY.(kind := Some(StringKind)));
    var s := EMPTY.(
      kind := Some(ObjectKind), properties := [p], additional := Each(EMPTY.(kind := Some(NumberKind))));
    var v := Object(map["name" := String("x")]);
    assert Declared(s, "name") by { assert s.properties[0].key == "name"; }
    assert Accepts(0, map[], p.schema, String("x"));
    assert MembersAccept(0, map[], s, v);
    AcceptsParts(0, map[], s, v);
    assert Translate(s.additional.schema) == Ok(NumberType);
    forall n: nat, types ensures !Member(n, types, IndexOf(NumberType), v) {
      assert v.fields["name"] == String("x");
    }
  }
}
