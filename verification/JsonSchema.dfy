/** JSON values. Numbers are exact reals, so 1 and 1.0 are the same value, as in JSON Schema. */
module Json {

  datatype Json =
    | Null
    | Bool(b: bool)
    | Number(n: real)
    | String(s: string)
    | Array(items: seq<Json>)
    | Object(fields: map<string, Json>)

  predicate Integral(n: real) {
    n == n.Floor as real
  }
}

/** The custom string formats the contract schema asserts. */
module Formats {
  import opened Characters
  import L = Lines

  datatype Format =
    | Uuid | Sha256 | Signed(signedBits: nat) | Unsigned(bits: nat) | Float(width: nat)
    | Name | DiagnosticText | RelativePath | DatasetPath | Timezone | Date | Base64

  predicate Hex(c: char) {
    '0' <= c <= '9' || 'a' <= c <= 'f'
  }

  predicate Printable(c: char) {
    c >= ' ' && c != '\U{7f}'
  }

  function Pow2(n: nat): (p: nat)
    ensures p > 0
  {
    if n == 0 then 1 else 2 * Pow2(n - 1)
  }

  predicate Natural(s: string) {
    s != [] && AllDigits(s) && (s[0] == '0' ==> |s| == 1)
  }

  // ---------------------------------------------------------------- paths and names

  predicate PathText(s: string) {
    0 < |s| <= 1024 && forall i :: 0 <= i < |s| ==> Printable(s[i]) && s[i] != '\\' && s[i] != ':'
  }

  predicate PlainParts(parts: seq<string>) {
    forall i :: 0 <= i < |parts| ==> parts[i] != "" && parts[i] != "." && parts[i] != ".."
  }

  /** The reserved words of Python, which may not be segments of a dataset path. */
  predicate PythonKeyword(s: string) {
    s in {"False", "None", "True", "and", "as", "assert", "async", "await", "break", "class", "continue", "def",
          "del", "elif", "else", "except", "finally", "for", "from", "global", "if", "import", "in", "is", "lambda",
          "nonlocal", "not", "or", "pass", "raise", "return", "try", "while", "with", "yield"}
  }

  predicate PathSegment(s: string) {
    s != "" && 'a' <= s[0] <= 'z' && forall i :: 0 <= i < |s| ==> 'a' <= s[i] <= 'z' || Digit(s[i]) || s[i] == '_'
  }

  predicate DatasetSegments(parts: seq<string>) {
    forall i :: 0 <= i < |parts| ==> PathSegment(parts[i]) && !PythonKeyword(parts[i])
  }

  /** Control characters and invisible formatting, which diagnostics must not hold. */
  predicate Unsafe(c: char) {
    || c < ' ' || '\U{7F}' <= c <= '\U{9F}' || c == '\U{61C}' || c == '\U{200E}' || c == '\U{200F}'
    || c == '\U{FEFF}' || '\U{2028}' <= c <= '\U{202E}' || '\U{2066}' <= c <= '\U{2069}'
  }

  predicate SafeText(s: string) {
    s != "" && Bytes(s) <= 32768 && forall i :: 0 <= i < |s| ==> !Unsafe(s[i])
  }

  predicate ZoneChar(c: char, first: bool) {
    Letter(c) || c == '+' || c == '-' || (!first && Digit(c))
  }

  predicate ZoneParts(parts: seq<string>) {
    |parts| >= 2 && forall i :: 0 <= i < |parts| ==>
      parts[i] != "" && forall j :: 0 <= j < |parts[i]| ==> ZoneChar(parts[i][j], i == 0)
  }

  // ---------------------------------------------------------------- dates and encoded bytes

  predicate DigitsAt(s: string, a: nat, b: nat) {
    a <= b <= |s| && AllDigits(s[a..b])
  }

  predicate LeapYear(y: nat) {
    y % 4 == 0 && (y % 100 == 0 ==> y % 400 == 0)
  }

  function DaysIn(y: nat, m: nat): nat {
    if m == 2 then (if LeapYear(y) then 29 else 28) else if m in {4, 6, 9, 11} then 30 else 31
  }

  predicate DateText(s: string) {
    && |s| == 10 && s[4] == '-' && s[7] == '-' && DigitsAt(s, 0, 4) && DigitsAt(s, 5, 7) && DigitsAt(s, 8, 10)
    && var y, m, d := Decimal(s[0..4]), Decimal(s[5..7]), Decimal(s[8..10]);
       1 <= y && 1 <= m <= 12 && 1 <= d <= DaysIn(y, m)
  }

  /** The value of a character in base 64; 64 stands for a character that has none. */
  function Sextet(c: char): nat {
    if 'A' <= c <= 'Z' then c as int - 'A' as int
    else if 'a' <= c <= 'z' then c as int - 'a' as int + 26
    else if Digit(c) then DigitValue(c) + 52
    else if c == '+' then 62
    else if c == '/' then 63
    else 64
  }

  /** Text without its trailing equals signs. */
  function Unpadded(s: string): (body: string)
    ensures body <= s
  {
    if s != "" && s[|s| - 1] == '=' then Unpadded(s[..|s| - 1]) else s
  }

  /** Whole groups of four, at most two of them padding, and no bits lost in the last character. */
  predicate Base64Text(s: string) {
    var body := Unpadded(s);
    var padding := |s| - |body|;
    && |s| % 4 == 0 && padding <= 2
    && (forall i :: 0 <= i < |body| ==> Sextet(body[i]) < 64)
    && (padding > 0 ==> body != "" && Sextet(body[|body| - 1]) % (if padding == 2 then 16 else 4) == 0)
  }

  // ---------------------------------------------------------------- floating point

  /** The position of the first of two characters at or after `i`. */
  function FirstOf(s: string, a: char, b: char, i: nat): (j: nat)
    requires i <= |s|
    ensures i <= j <= |s|
    decreases |s| - i
  {
    if i == |s| || s[i] == a || s[i] == b then i else FirstOf(s, a, b, i + 1)
  }

  predicate ExponentText(s: string) {
    var digits := if s != "" && (s[0] == '+' || s[0] == '-') then s[1..] else s;
    digits != "" && AllDigits(digits)
  }

  /** A decimal without sign: whole part, optional fraction, optional exponent. */
  predicate Numeral(s: string) {
    var e := FirstOf(s, 'e', 'E', 0);
    var dot := FirstOf(s[..e], '.', '.', 0);
    && Natural(s[..dot])
    && (dot < e ==> dot + 1 < e && AllDigits(s[dot + 1..e]))
    && (e < |s| ==> ExponentText(s[e + 1..]))
  }

  function Power(base: real, n: nat): real {
    if n == 0 then 1.0 else base * Power(base, n - 1)
  }

  /** The exponent that a numeral writes out, or none. */
  function ExponentValue(s: string): int
    requires ExponentText(s)
  {
    if s[0] == '-' then 0 - Decimal(s[1..]) else if s[0] == '+' then Decimal(s[1..]) else Decimal(s)
  }

  function Scaled(n: nat, exponent: int): real {
    if exponent >= 0 then n as real * Power(10.0, exponent) else n as real * Power(0.1, -exponent)
  }

  /** The magnitude that a numeral denotes. */
  function Magnitude(s: string): real
    requires Numeral(s)
  {
    var e := FirstOf(s, 'e', 'E', 0);
    var dot := FirstOf(s[..e], '.', '.', 0);
    var fraction := if dot < e then s[dot + 1..e] else "";
    var exponent := if e < |s| then ExponentValue(s[e + 1..]) else 0;
    AllDigitsConcat(s[..dot], fraction);
    Scaled(Decimal(s[..dot] + fraction), exponent - |fraction|)
  }

  lemma AllDigitsConcat(a: string, b: string)
    requires AllDigits(a) && AllDigits(b)
    ensures AllDigits(a + b)
  {
  }

  /** Rounds to a finite number, and to zero only from zero; one rounding, ties to even. */
  predicate InRange(width: nat, x: real) {
    x == 0.0 ||
    if width == 32 then Power(0.5, 150) < x < Power(2.0, 128) - Power(2.0, 103)
    else Power(0.5, 1075) < x < Power(2.0, 1024) - Power(2.0, 970)
  }

  predicate FloatText(width: nat, s: string) {
    || s == "NaN" || s == "Infinity" || s == "-Infinity"
    || (var unsigned := if s != "" && s[0] == '-' then s[1..] else s;
        Numeral(unsigned) && InRange(width, Magnitude(unsigned)))
  }

  // ---------------------------------------------------------------- all formats

  predicate Accepts(f: Format, s: string) {
    match f
    case Uuid =>
      |s| == 36 && forall i :: 0 <= i < 36 ==> if i in {8, 13, 18, 23} then s[i] == '-' else Hex(s[i])
    case Sha256 => |s| == 64 && forall c :: c in s ==> Hex(c)
    case Unsigned(bits) => Natural(s) && Decimal(s) < Pow2(bits)
    case Signed(bits) =>
      bits > 0 &&
      if s != [] && s[0] == '-'
        then Natural(s[1..]) && s[1..] != "0" && Decimal(s[1..]) <= Pow2(bits - 1)
        else Natural(s) && Decimal(s) < Pow2(bits - 1)
    case Float(width) => FloatText(width, s)
    case Name => 0 < |s| <= 256 && forall c :: c in s ==> Printable(c)
    case DiagnosticText => SafeText(s)
    case RelativePath => PathText(s) && PlainParts(L.SplitAt(s, '/'))
    case DatasetPath => DatasetSegments(L.SplitAt(s, '/'))
    case Timezone => s == "UTC" || ZoneParts(L.SplitAt(s, '/'))
    case Date => DateText(s)
    case Base64 => Base64Text(s)
  }
}

/** The JSON Schema Draft 2020-12 keywords that the authored contracts use. */
module JsonSchema {
  import opened Json
  import opened Results
  import Formats

  /** A name in the `type` keyword; a name outside the standard makes the schema accept nothing. */
  datatype Kind =
    | NullKind | BooleanKind | IntegerKind | NumberKind | StringKind | ArrayKind | ObjectKind
    | UnknownKind(name: string)

  datatype Property = Property(key: string, schema: Schema)
  datatype OneOf = NoOneOf | OneOf(branches: seq<Schema>)
  datatype Enum = NoEnum | Enum(values: seq<Json>)
  datatype Items = NoItems | Items(schema: Schema)
  datatype Additional = Unspecified | Allowed(allowed: bool) | Each(schema: Schema)

  /** One schema object. `ref` holds the raw `$ref` text and `kind` the one name in `type`. */
  datatype Schema = Schema(
    ref: Option<string>,
    oneOf: OneOf,
    const_: Option<Json>,
    enum_: Enum,
    kind: Option<Kind>,
    properties: seq<Property>,
    required: seq<string>,
    additional: Additional,
    items: Items,
    minItems: Option<nat>,
    maxItems: Option<nat>,
    minLength: Option<nat>,
    maxLength: Option<nat>,
    format: Option<Formats.Format>,
    minimum: Option<real>,
    maximum: Option<real>)

  type Definitions = map<string, Schema>

  /** A schema with no keyword; it accepts everything. */
  const EMPTY := Schema(
    None, NoOneOf, None, NoEnum, None, [], [], Unspecified, NoItems,
    None, None, None, None, None, None, None)

  const PREFIX := "#/$defs/"

  /** `ref.removeprefix("#/$defs/")`. */
  function Target(ref: string): string {
    if PREFIX <= ref then ref[|PREFIX|..] else ref
  }

  predicate KindAccepts(kind: Kind, v: Json) {
    match kind
    case NullKind => v.Null?
    case BooleanKind => v.Bool?
    case IntegerKind => v.Number? && Integral(v.n)
    case NumberKind => v.Number?
    case StringKind => v.String?
    case ArrayKind => v.Array?
    case ObjectKind => v.Object?
    case UnknownKind(_) => false
  }

  /** The keywords that look at one value without descending into it. */
  predicate Local(s: Schema, v: Json) {
    && (s.const_.Some? ==> v == s.const_.value)
    && (s.enum_.Enum? ==> v in s.enum_.values)
    && (s.kind.Some? ==> KindAccepts(s.kind.value, v))
    && (v.Array? ==>
          && (s.minItems.Some? ==> |v.items| >= s.minItems.value)
          && (s.maxItems.Some? ==> |v.items| <= s.maxItems.value))
    && (v.String? ==>
          && (s.minLength.Some? ==> |v.s| >= s.minLength.value)
          && (s.maxLength.Some? ==> |v.s| <= s.maxLength.value)
          && (s.format.Some? ==> Formats.Accepts(s.format.value, v.s)))
    && (v.Number? ==>
          && (s.minimum.Some? ==> v.n >= s.minimum.value)
          && (s.maximum.Some? ==> v.n <= s.maximum.value))
    && (v.Object? ==> forall key :: key in s.required ==> key in v.fields)
  }

  predicate Declared(s: Schema, key: string) {
    exists i :: 0 <= i < |s.properties| && s.properties[i].key == key
  }

  /**
    * `Accepts` and `Rejects` are the two halves of validation, each decided after following
    * at most `n` nested references. They are defined together because `oneOf` accepts a value
    * only when every other branch rejects it. Both only grow with `n`, and they never overlap.
    */
  ghost predicate Accepts(n: nat, defs: Definitions, s: Schema, v: Json)
    decreases n, s, 1
  {
    && Local(s, v)
    && RefAccepts(n, defs, s, v)
    && OneOfAccepts(n, defs, s, v)
    && ItemsAccept(n, defs, s, v)
    && MembersAccept(n, defs, s, v)
  }

  ghost predicate Rejects(n: nat, defs: Definitions, s: Schema, v: Json)
    decreases n, s, 1
  {
    || !Local(s, v)
    || RefRejects(n, defs, s, v)
    || OneOfRejects(n, defs, s, v)
    || ItemsReject(n, defs, s, v)
    || MembersReject(n, defs, s, v)
  }

  /** Core, section 8.2.3.1: a reference applies the schema it names. */
  ghost predicate RefAccepts(n: nat, defs: Definitions, s: Schema, v: Json)
    decreases n, s, 0
  {
    s.ref.Some? ==>
      Target(s.ref.value) in defs && n > 0 && Accepts(n - 1, defs, defs[Target(s.ref.value)], v)
  }

  ghost predicate RefRejects(n: nat, defs: Definitions, s: Schema, v: Json)
    decreases n, s, 0
  {
    s.ref.Some? &&
      (Target(s.ref.value) in defs ==> n > 0 && Rejects(n - 1, defs, defs[Target(s.ref.value)], v))
  }

  /** Core, section 10.2.1.3: exactly one branch. */
  ghost predicate OneOfAccepts(n: nat, defs: Definitions, s: Schema, v: Json)
    decreases n, s, 0
  {
    s.oneOf.OneOf? ==>
      exists i :: 0 <= i < |s.oneOf.branches| && Accepts(n, defs, s.oneOf.branches[i], v) &&
        forall j :: 0 <= j < |s.oneOf.branches| && j != i ==> Rejects(n, defs, s.oneOf.branches[j], v)
  }

  ghost predicate OneOfRejects(n: nat, defs: Definitions, s: Schema, v: Json)
    decreases n, s, 0
  {
    s.oneOf.OneOf? &&
      (|| (forall j :: 0 <= j < |s.oneOf.branches| ==> Rejects(n, defs, s.oneOf.branches[j], v))
       || (exists i, j :: 0 <= i < j < |s.oneOf.branches| &&
             Accepts(n, defs, s.oneOf.branches[i], v) && Accepts(n, defs, s.oneOf.branches[j], v)))
  }

  /** Core, section 10.3.1.2. */
  ghost predicate ItemsAccept(n: nat, defs: Definitions, s: Schema, v: Json)
    decreases n, s, 0
  {
    v.Array? && s.items.Items? ==>
      forall i :: 0 <= i < |v.items| ==> Accepts(n, defs, s.items.schema, v.items[i])
  }

  ghost predicate ItemsReject(n: nat, defs: Definitions, s: Schema, v: Json)
    decreases n, s, 0
  {
    v.Array? && s.items.Items? &&
      exists i :: 0 <= i < |v.items| && Rejects(n, defs, s.items.schema, v.items[i])
  }

  /** Core, sections 10.3.2.1 and 10.3.2.3: declared members first, every other one by `additional`. */
  ghost predicate MembersAccept(n: nat, defs: Definitions, s: Schema, v: Json)
    decreases n, s, 0
  {
    v.Object? ==>
      && (forall i :: 0 <= i < |s.properties| && s.properties[i].key in v.fields ==>
            Accepts(n, defs, s.properties[i].schema, v.fields[s.properties[i].key]))
      && (s.additional == Allowed(false) ==> forall key :: key in v.fields ==> Declared(s, key))
      && (s.additional.Each? ==>
            forall key :: key in v.fields && !Declared(s, key) ==>
              Accepts(n, defs, s.additional.schema, v.fields[key]))
  }

  ghost predicate MembersReject(n: nat, defs: Definitions, s: Schema, v: Json)
    decreases n, s, 0
  {
    v.Object? &&
      (|| (exists i :: 0 <= i < |s.properties| && s.properties[i].key in v.fields &&
             Rejects(n, defs, s.properties[i].schema, v.fields[s.properties[i].key]))
       || (s.additional == Allowed(false) && exists key :: key in v.fields && !Declared(s, key))
       || (s.additional.Each? &&
             exists key :: key in v.fields && !Declared(s, key) &&
               Rejects(n, defs, s.additional.schema, v.fields[key])))
  }

  ghost predicate Valid(defs: Definitions, s: Schema, v: Json) {
    exists n: nat :: Accepts(n, defs, s, v)
  }

  lemma AcceptsParts(n: nat, defs: Definitions, s: Schema, v: Json)
    requires Local(s, v) && RefAccepts(n, defs, s, v) && OneOfAccepts(n, defs, s, v)
    requires ItemsAccept(n, defs, s, v) && MembersAccept(n, defs, s, v)
    ensures Accepts(n, defs, s, v)
  {
  }

  /** Following more references never changes a verdict already reached. */
  lemma {:induction false} VerdictsPersist(n: nat, m: nat, defs: Definitions, s: Schema, v: Json)
    requires n <= m
    ensures Accepts(n, defs, s, v) ==> Accepts(m, defs, s, v)
    ensures Rejects(n, defs, s, v) ==> Rejects(m, defs, s, v)
    decreases n, s, 1
  {
    RefPersists(n, m, defs, s, v);
    OneOfPersists(n, m, defs, s, v);
    ItemsPersist(n, m, defs, s, v);
    MembersPersist(n, m, defs, s, v);
  }

  lemma {:induction false} RefPersists(n: nat, m: nat, defs: Definitions, s: Schema, v: Json)
    requires n <= m
    ensures RefAccepts(n, defs, s, v) ==> RefAccepts(m, defs, s, v)
    ensures RefRejects(n, defs, s, v) ==> RefRejects(m, defs, s, v)
    decreases n, s, 0
  {
    if s.ref.Some? && Target(s.ref.value) in defs && n > 0 {
      VerdictsPersist(n - 1, m - 1, defs, defs[Target(s.ref.value)], v);
    }
  }

  lemma {:induction false} OneOfPersists(n: nat, m: nat, defs: Definitions, s: Schema, v: Json)
    requires n <= m
    ensures OneOfAccepts(n, defs, s, v) ==> OneOfAccepts(m, defs, s, v)
    ensures OneOfRejects(n, defs, s, v) ==> OneOfRejects(m, defs, s, v)
    decreases n, s, 0
  {
    if s.oneOf.OneOf? {
      forall i | 0 <= i < |s.oneOf.branches|
        ensures Accepts(n, defs, s.oneOf.branches[i], v) ==> Accepts(m, defs, s.oneOf.branches[i], v)
        ensures Rejects(n, defs, s.oneOf.branches[i], v) ==> Rejects(m, defs, s.oneOf.branches[i], v)
      {
        VerdictsPersist(n, m, defs, s.oneOf.branches[i], v);
      }
    }
  }

  lemma {:induction false} ItemsPersist(n: nat, m: nat, defs: Definitions, s: Schema, v: Json)
    requires n <= m
    ensures ItemsAccept(n, defs, s, v) ==> ItemsAccept(m, defs, s, v)
    ensures ItemsReject(n, defs, s, v) ==> ItemsReject(m, defs, s, v)
    decreases n, s, 0
  {
    if v.Array? && s.items.Items? {
      forall i | 0 <= i < |v.items|
        ensures Accepts(n, defs, s.items.schema, v.items[i]) ==> Accepts(m, defs, s.items.schema, v.items[i])
        ensures Rejects(n, defs, s.items.schema, v.items[i]) ==> Rejects(m, defs, s.items.schema, v.items[i])
      {
        VerdictsPersist(n, m, defs, s.items.schema, v.items[i]);
      }
    }
  }

  lemma {:induction false} MembersPersist(n: nat, m: nat, defs: Definitions, s: Schema, v: Json)
    requires n <= m
    ensures MembersAccept(n, defs, s, v) ==> MembersAccept(m, defs, s, v)
    ensures MembersReject(n, defs, s, v) ==> MembersReject(m, defs, s, v)
    decreases n, s, 0
  {
    if v.Object? {
      forall i | 0 <= i < |s.properties| && s.properties[i].key in v.fields
        ensures var p, x := s.properties[i].schema, v.fields[s.properties[i].key];
          (Accepts(n, defs, p, x) ==> Accepts(m, defs, p, x)) && (Rejects(n, defs, p, x) ==> Rejects(m, defs, p, x))
      {
        VerdictsPersist(n, m, defs, s.properties[i].schema, v.fields[s.properties[i].key]);
      }
      if s.additional.Each? {
        forall key | key in v.fields
          ensures var a, x := s.additional.schema, v.fields[key];
            (Accepts(n, defs, a, x) ==> Accepts(m, defs, a, x)) && (Rejects(n, defs, a, x) ==> Rejects(m, defs, a, x))
        {
          VerdictsPersist(n, m, defs, s.additional.schema, v.fields[key]);
        }
      }
    }
  }

  /** No value is both accepted and rejected. */
  lemma {:induction false} VerdictsExclude(n: nat, defs: Definitions, s: Schema, v: Json)
    ensures !(Accepts(n, defs, s, v) && Rejects(n, defs, s, v))
    decreases n, s, 1
  {
    RefExcludes(n, defs, s, v);
    OneOfExcludes(n, defs, s, v);
    ItemsExclude(n, defs, s, v);
    MembersExclude(n, defs, s, v);
  }

  lemma {:induction false} RefExcludes(n: nat, defs: Definitions, s: Schema, v: Json)
    ensures !(RefAccepts(n, defs, s, v) && RefRejects(n, defs, s, v))
    decreases n, s, 0
  {
    if s.ref.Some? && Target(s.ref.value) in defs && n > 0 {
      VerdictsExclude(n - 1, defs, defs[Target(s.ref.value)], v);
    }
  }

  lemma {:induction false} OneOfExcludes(n: nat, defs: Definitions, s: Schema, v: Json)
    ensures !(OneOfAccepts(n, defs, s, v) && OneOfRejects(n, defs, s, v))
    decreases n, s, 0
  {
    if s.oneOf.OneOf? {
      forall i | 0 <= i < |s.oneOf.branches|
        ensures !(Accepts(n, defs, s.oneOf.branches[i], v) && Rejects(n, defs, s.oneOf.branches[i], v))
      {
        VerdictsExclude(n, defs, s.oneOf.branches[i], v);
      }
    }
  }

  lemma {:induction false} ItemsExclude(n: nat, defs: Definitions, s: Schema, v: Json)
    ensures !(ItemsAccept(n, defs, s, v) && ItemsReject(n, defs, s, v))
    decreases n, s, 0
  {
    if v.Array? && s.items.Items? {
      forall i | 0 <= i < |v.items|
        ensures !(Accepts(n, defs, s.items.schema, v.items[i]) && Rejects(n, defs, s.items.schema, v.items[i]))
      {
        VerdictsExclude(n, defs, s.items.schema, v.items[i]);
      }
    }
  }

  lemma {:induction false} MembersExclude(n: nat, defs: Definitions, s: Schema, v: Json)
    ensures !(MembersAccept(n, defs, s, v) && MembersReject(n, defs, s, v))
    decreases n, s, 0
  {
    if v.Object? {
      forall i | 0 <= i < |s.properties| && s.properties[i].key in v.fields
        ensures var p, x := s.properties[i].schema, v.fields[s.properties[i].key];
          !(Accepts(n, defs, p, x) && Rejects(n, defs, p, x))
      {
        VerdictsExclude(n, defs, s.properties[i].schema, v.fields[s.properties[i].key]);
      }
      if s.additional.Each? {
        forall key | key in v.fields
          ensures var a, x := s.additional.schema, v.fields[key]; !(Accepts(n, defs, a, x) && Rejects(n, defs, a, x))
        {
          VerdictsExclude(n, defs, s.additional.schema, v.fields[key]);
        }
      }
    }
  }
}
