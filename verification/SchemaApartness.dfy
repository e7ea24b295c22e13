/** Syntactic evidence that two schemas share no value: other JSON kinds, other tags, or a key only one side allows. */
module SchemaApartness {
  import opened Json
  import opened Results
  import opened JsonSchema

  const ALL_KINDS: set<Kind> := {NullKind, BooleanKind, NumberKind, StringKind, ArrayKind, ObjectKind}

  function KindOf(v: Json): Kind {
    match v
    case Null => NullKind
    case Bool(_) => BooleanKind
    case Number(_) => NumberKind
    case String(_) => StringKind
    case Array(_) => ArrayKind
    case Object(_) => ObjectKind
  }

  /** The kinds a value of `s` may have, following at most `k` nested references. */
  ghost function KindsOf(k: nat, defs: Definitions, s: Schema): set<Kind>
    decreases k, s
  {
    if s.ref.Some? then
      if Target(s.ref.value) !in defs then {}
      else if k == 0 then ALL_KINDS
      else KindsOf(k - 1, defs, defs[Target(s.ref.value)])
    else if s.oneOf.OneOf? then
      set kind | kind in ALL_KINDS &&
        exists i :: 0 <= i < |s.oneOf.branches| && kind in KindsOf(k, defs, s.oneOf.branches[i])
    else if s.const_.Some? then {KindOf(s.const_.value)}
    else if s.enum_.Enum? then set x | x in s.enum_.values :: KindOf(x)
    else if s.kind.Some? then {if s.kind.value.IntegerKind? then NumberKind else s.kind.value}
    else ALL_KINDS
  }

  /** The values of a schema, when constants and enumerations list them all. */
  ghost function Constants(k: nat, defs: Definitions, s: Schema): Option<iset<Json>>
    decreases k, s
  {
    if s.ref.Some? then
      if Target(s.ref.value) !in defs then Some(iset{})
      else if k == 0 then None
      else Constants(k - 1, defs, defs[Target(s.ref.value)])
    else if s.oneOf.OneOf? then
      if forall i :: 0 <= i < |s.oneOf.branches| ==> Constants(k, defs, s.oneOf.branches[i]).Some?
      then Some(iset i, x | 0 <= i < |s.oneOf.branches| && x in Constants(k, defs, s.oneOf.branches[i]).value :: x)
      else None
    else if s.const_.Some? then Some(iset{s.const_.value})
    else if s.enum_.Enum? then Some(iset x | x in s.enum_.values)
    else None
  }

  /** The values a member `key` must have in every value of `s`, when the schema pins it down. */
  ghost function Tags(k: nat, defs: Definitions, s: Schema, key: string): Option<iset<Json>>
    decreases k, s
  {
    if s.ref.Some? then
      if Target(s.ref.value) !in defs then Some(iset{})
      else if k == 0 then None
      else Tags(k - 1, defs, defs[Target(s.ref.value)], key)
    else if s.oneOf.OneOf? then
      if forall i :: 0 <= i < |s.oneOf.branches| ==> Tags(k, defs, s.oneOf.branches[i], key).Some?
      then Some(iset i, x | 0 <= i < |s.oneOf.branches| && x in Tags(k, defs, s.oneOf.branches[i], key).value :: x)
      else None
    else if s.kind == Some(ObjectKind) && key in s.required then
      if i :| 0 <= i < |s.properties| && s.properties[i].key == key && Constants(k, defs, s.properties[i].schema).Some?
      then Constants(k, defs, s.properties[i].schema)
      else None
    else None
  }

  ghost predicate HoldsKey(v: Json, key: string) {
    v.Object? && key in v.fields
  }

  /** Every value of `s` is an object that holds `key`. */
  ghost predicate Requires(k: nat, defs: Definitions, s: Schema, key: string)
    decreases k, s
  {
    if s.ref.Some? then
      Target(s.ref.value) in defs ==> k > 0 && Requires(k - 1, defs, defs[Target(s.ref.value)], key)
    else if s.oneOf.OneOf? then
      forall i :: 0 <= i < |s.oneOf.branches| ==> Requires(k, defs, s.oneOf.branches[i], key)
    else if s.const_.Some? then HoldsKey(s.const_.value, key)
    else if s.enum_.Enum? then forall x :: x in s.enum_.values ==> HoldsKey(x, key)
    else s.kind == Some(ObjectKind) && key in s.required
  }

  /** No value of `s` holds `key`: it is no object, or a closed one that does not declare it. */
  ghost predicate Forbids(k: nat, defs: Definitions, s: Schema, key: string)
    decreases k, s
  {
    if s.ref.Some? then
      Target(s.ref.value) in defs ==> k > 0 && Forbids(k - 1, defs, defs[Target(s.ref.value)], key)
    else if s.oneOf.OneOf? then
      forall i :: 0 <= i < |s.oneOf.branches| ==> Forbids(k, defs, s.oneOf.branches[i], key)
    else if s.const_.Some? then !HoldsKey(s.const_.value, key)
    else if s.enum_.Enum? then forall x :: x in s.enum_.values ==> !HoldsKey(x, key)
    else
      || (s.kind.Some? && s.kind.value != ObjectKind)
      || (s.additional == Allowed(false) && !Declared(s, key))
  }

  ghost predicate TaggedApart(k: nat, defs: Definitions, a: Schema, b: Schema, key: string) {
    Tags(k, defs, a, key).Some? && Tags(k, defs, b, key).Some? &&
    Tags(k, defs, a, key).value !! Tags(k, defs, b, key).value
  }

  ghost predicate KeyApart(k: nat, defs: Definitions, a: Schema, b: Schema, key: string) {
    || (Requires(k, defs, a, key) && Forbids(k, defs, b, key))
    || (Forbids(k, defs, a, key) && Requires(k, defs, b, key))
  }

  /** Different kinds, different tags, or a key that one side requires and the other, a closed object, lacks. */
  ghost predicate Apart(k: nat, defs: Definitions, a: Schema, b: Schema) {
    || KindsOf(k, defs, a) !! KindsOf(k, defs, b)
    || (exists key :: TaggedApart(k, defs, a, b, key))
    || (exists key :: KeyApart(k, defs, a, b, key))
  }

  lemma {:induction false} OtherKindsAreRejected(k: nat, defs: Definitions, s: Schema, v: Json)
    requires KindOf(v) !in KindsOf(k, defs, s)
    ensures Rejects(k, defs, s, v)
    decreases k, s
  {
    if s.ref.Some? {
      if Target(s.ref.value) in defs {
        OtherKindsAreRejected(k - 1, defs, defs[Target(s.ref.value)], v);
      }
      assert RefRejects(k, defs, s, v);
    } else if s.oneOf.OneOf? {
      forall i | 0 <= i < |s.oneOf.branches| ensures Rejects(k, defs, s.oneOf.branches[i], v) {
        OtherKindsAreRejected(k, defs, s.oneOf.branches[i], v);
      }
      assert OneOfRejects(k, defs, s, v);
    } else {
      assert !Local(s, v);
    }
  }

  lemma {:induction false} OtherConstantsAreRejected(k: nat, defs: Definitions, s: Schema, v: Json)
    requires Constants(k, defs, s).Some? && v !in Constants(k, defs, s).value
    ensures Rejects(k, defs, s, v)
    decreases k, s
  {
    if s.ref.Some? {
      if Target(s.ref.value) in defs {
        OtherConstantsAreRejected(k - 1, defs, defs[Target(s.ref.value)], v);
      }
      assert RefRejects(k, defs, s, v);
    } else if s.oneOf.OneOf? {
      forall i | 0 <= i < |s.oneOf.branches| ensures Rejects(k, defs, s.oneOf.branches[i], v) {
        OtherConstantsAreRejected(k, defs, s.oneOf.branches[i], v);
      }
      assert OneOfRejects(k, defs, s, v);
    } else {
      assert !Local(s, v);
    }
  }

  ghost predicate Tagged(v: Json, key: string, tags: iset<Json>) {
    v.Object? && key in v.fields && v.fields[key] in tags
  }

  lemma {:induction false} OtherTagsAreRejected(k: nat, defs: Definitions, s: Schema, key: string, v: Json)
    requires Tags(k, defs, s, key).Some? && !Tagged(v, key, Tags(k, defs, s, key).value)
    ensures Rejects(k, defs, s, v)
    decreases k, s
  {
    if s.ref.Some? {
      if Target(s.ref.value) in defs {
        OtherTagsAreRejected(k - 1, defs, defs[Target(s.ref.value)], key, v);
      }
      assert RefRejects(k, defs, s, v);
    } else if s.oneOf.OneOf? {
      forall i | 0 <= i < |s.oneOf.branches| ensures Rejects(k, defs, s.oneOf.branches[i], v) {
        OtherTagsAreRejected(k, defs, s.oneOf.branches[i], key, v);
      }
      assert OneOfRejects(k, defs, s, v);
    } else if Local(s, v) {
      var i :|
        0 <= i < |s.properties| && s.properties[i].key == key && Constants(k, defs, s.properties[i].schema).Some? &&
        Tags(k, defs, s, key) == Constants(k, defs, s.properties[i].schema);
      OtherConstantsAreRejected(k, defs, s.properties[i].schema, v.fields[key]);
      assert Rejects(k, defs, s.properties[i].schema, v.fields[s.properties[i].key]);
      assert MembersReject(k, defs, s, v);
    }
  }

  lemma {:induction false} WithoutRequiredKeyIsRejected(k: nat, defs: Definitions, s: Schema, key: string, v: Json)
    requires Requires(k, defs, s, key) && !HoldsKey(v, key)
    ensures Rejects(k, defs, s, v)
    decreases k, s
  {
    if s.ref.Some? {
      if Target(s.ref.value) in defs {
        WithoutRequiredKeyIsRejected(k - 1, defs, defs[Target(s.ref.value)], key, v);
      }
      assert RefRejects(k, defs, s, v);
    } else if s.oneOf.OneOf? {
      forall i | 0 <= i < |s.oneOf.branches| ensures Rejects(k, defs, s.oneOf.branches[i], v) {
        WithoutRequiredKeyIsRejected(k, defs, s.oneOf.branches[i], key, v);
      }
      assert OneOfRejects(k, defs, s, v);
    } else {
      assert !Local(s, v);
    }
  }

  lemma {:induction false} WithForbiddenKeyIsRejected(k: nat, defs: Definitions, s: Schema, key: string, v: Json)
    requires Forbids(k, defs, s, key) && HoldsKey(v, key)
    ensures Rejects(k, defs, s, v)
    decreases k, s
  {
    if s.ref.Some? {
      if Target(s.ref.value) in defs {
        WithForbiddenKeyIsRejected(k - 1, defs, defs[Target(s.ref.value)], key, v);
      }
      assert RefRejects(k, defs, s, v);
    } else if s.oneOf.OneOf? {
      forall i | 0 <= i < |s.oneOf.branches| ensures Rejects(k, defs, s.oneOf.branches[i], v) {
        WithForbiddenKeyIsRejected(k, defs, s.oneOf.branches[i], key, v);
      }
      assert OneOfRejects(k, defs, s, v);
    } else if Local(s, v) {
      assert MembersReject(k, defs, s, v);
    }
  }

  lemma AcceptedIsNotRejected(n: nat, k: nat, defs: Definitions, s: Schema, v: Json)
    requires Accepts(n, defs, s, v)
    ensures !Rejects(k, defs, s, v)
  {
    var m := if n < k then k else n;
    VerdictsPersist(n, m, defs, s, v);
    VerdictsPersist(k, m, defs, s, v);
    VerdictsExclude(m, defs, s, v);
  }

  lemma OtherKindsExclude(k: nat, defs: Definitions, a: Schema, b: Schema, v: Json)
    requires KindsOf(k, defs, a) !! KindsOf(k, defs, b) && !Rejects(k, defs, a, v)
    ensures Rejects(k, defs, b, v)
  {
    if KindOf(v) in KindsOf(k, defs, b) {
      OtherKindsAreRejected(k, defs, a, v);
    }
    OtherKindsAreRejected(k, defs, b, v);
  }

  lemma OtherTagsExclude(k: nat, defs: Definitions, a: Schema, b: Schema, key: string, v: Json)
    requires TaggedApart(k, defs, a, b, key) && !Rejects(k, defs, a, v)
    ensures Rejects(k, defs, b, v)
  {
    if !Tagged(v, key, Tags(k, defs, a, key).value) {
      OtherTagsAreRejected(k, defs, a, key, v);
    }
    OtherTagsAreRejected(k, defs, b, key, v);
  }

  lemma OtherKeysExclude(k: nat, defs: Definitions, a: Schema, b: Schema, key: string, v: Json)
    requires KeyApart(k, defs, a, b, key) && !Rejects(k, defs, a, v)
    ensures Rejects(k, defs, b, v)
  {
    if Requires(k, defs, a, key) && Forbids(k, defs, b, key) {
      if !HoldsKey(v, key) {
        WithoutRequiredKeyIsRejected(k, defs, a, key, v);
      }
      WithForbiddenKeyIsRejected(k, defs, b, key, v);
    } else {
      if HoldsKey(v, key) {
        WithForbiddenKeyIsRejected(k, defs, a, key, v);
      }
      WithoutRequiredKeyIsRejected(k, defs, b, key, v);
    }
  }

  /** A value accepted by one of two schemas that are apart is rejected by the other. */
  lemma ApartSchemasExclude(n: nat, k: nat, defs: Definitions, a: Schema, b: Schema, v: Json)
    requires Apart(k, defs, a, b) && Accepts(n, defs, a, v)
    ensures Rejects(k, defs, b, v)
  {
    AcceptedIsNotRejected(n, k, defs, a, v);
    if KindsOf(k, defs, a) !! KindsOf(k, defs, b) {
      OtherKindsExclude(k, defs, a, b, v);
    } else if key :| TaggedApart(k, defs, a, b, key) {
      OtherTagsExclude(k, defs, a, b, key, v);
    } else {
      var key :| KeyApart(k, defs, a, b, key);
      OtherKeysExclude(k, defs, a, b, key, v);
    }
  }
}
