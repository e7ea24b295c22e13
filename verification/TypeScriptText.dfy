/** The text that tools/contracts/generate.py emits for types, and a parser that recovers the types from it. */
module TypeScriptText {
  import opened Characters
  import opened Json
  import opened Results
  import opened JsonSchema
  import opened TypeScript
  import opened ContractTypes
  import opened JsonText
  import opened LiteralText
  import Text

  const BAR: string := " | "
  const UNION: string := "("
  const END_UNION: string := ")"
  const ARRAY: string := "ReadonlyArray"
  const LESS: string := "<"
  const GREATER: string := ">"
  const OPEN: string := "{ "
  const CLOSE: string := " }"
  const READONLY: string := "readonly "
  const KEY: string := "[key: string]: "
  const NEXT: string := "; "
  const OPTIONAL: string := "?"
  const EMPTY: string := "Readonly"
  const NEVER: string := "<Record<string, never>>"

  // ---------------------------------------------------------------- printing

  function Print(w: Writer, t: Type): string
    decreases t, 1
  {
    match t
    case Alias(name) => name
    case Union(members) => UNION + JoinWith(BAR, PrintAll(w, members)) + END_UNION
    case Literal(v) => Dumped(w, v)
    case NumberType => "number"
    case BooleanType => "boolean"
    case StringType => "string"
    case NullType => "null"
    case ArrayOf(element) => ARRAY + LESS + Print(w, element) + GREATER
    case IndexOf(value) => OPEN + READONLY + KEY + Print(w, value) + CLOSE
    case Record(fields) => OPEN + JoinWith(NEXT, PrintFields(w, fields)) + CLOSE
    case EmptyRecord => EMPTY + NEVER
  }

  function PrintAll(w: Writer, types: seq<Type>): (texts: seq<string>)
    ensures |texts| == |types|
    decreases types, 2
  {
    if types == [] then [] else [Print(w, types[0])] + PrintAll(w, types[1..])
  }

  function FieldText(key: string, optional: bool, text: string): string {
    READONLY + Quoted(key) + (if optional then OPTIONAL else "") + COLON + text
  }

  function PrintFields(w: Writer, fields: seq<Field>): (texts: seq<string>)
    ensures |texts| == |fields|
    decreases fields, 2
  {
    if fields == [] then []
    else [FieldText(fields[0].key, fields[0].optional, Print(w, fields[0].typ))] + PrintFields(w, fields[1..])
  }

  // ---------------------------------------------------------------- the generator itself

  /** `typescript`, building text directly from the schema node. */
  function Typescript(w: Writer, s: Schema): Result<string, Problem>
    decreases s, 1
  {
    if s.ref.Some? then Ok(Target(s.ref.value))
    else if s.oneOf.OneOf? then
      var branches :- TypescriptAll(w, s.oneOf.branches);
      Ok(UNION + JoinWith(BAR, branches) + END_UNION)
    else if s.const_.Some? then Ok(Dumped(w, s.const_.value))
    else if s.enum_.Enum? then Ok(UNION + JoinWith(BAR, DumpedAll(w, s.enum_.values)) + END_UNION)
    else if s.kind.None? then Err(MissingKeyword("type"))
    else match s.kind.value
      case IntegerKind => Ok("number")
      case NumberKind => Ok("number")
      case BooleanKind => Ok("boolean")
      case StringKind => Ok("string")
      case NullKind => Ok("null")
      case ArrayKind =>
        if s.items.NoItems? then Err(MissingKeyword("items"))
        else
          var element :- Typescript(w, s.items.schema);
          Ok(ARRAY + LESS + element + GREATER)
      case ObjectKind => TypescriptObject(w, s)
      case UnknownKind(name) => Err(UnsupportedType(name))
  }

  function TypescriptObject(w: Writer, s: Schema): Result<string, Problem>
    decreases s, 0
  {
    if s.additional.Each? then
      var value :- Typescript(w, s.additional.schema);
      Ok(OPEN + READONLY + KEY + value + CLOSE)
    else
      var fields :- TypescriptFields(w, s.properties, s.required);
      if fields == [] && s.additional == Allowed(false) then Ok(EMPTY + NEVER)
      else Ok(OPEN + JoinWith(NEXT, fields) + CLOSE)
  }

  function DumpedAll(w: Writer, values: seq<Json>): seq<string> {
    if values == [] then [] else [Dumped(w, values[0])] + DumpedAll(w, values[1..])
  }

  function TypescriptAll(w: Writer, branches: seq<Schema>): Result<seq<string>, Problem>
    decreases branches, 2
  {
    if branches == [] then Ok([])
    else
      var first :- Typescript(w, branches[0]);
      var rest :- TypescriptAll(w, branches[1..]);
      Ok([first] + rest)
  }

  function TypescriptFields(w: Writer, properties: seq<Property>, required: seq<string>): Result<seq<string>, Problem>
    decreases properties, 2
  {
    if properties == [] then Ok([])
    else
      var p := properties[0];
      var text :- Typescript(w, p.schema);
      var rest :- TypescriptFields(w, properties[1..], required);
      Ok([FieldText(p.key, p.key !in required, text)] + rest)
  }

  function Printed(w: Writer, r: Result<Type, Problem>): Result<string, Problem> {
    match r case Ok(t) => Ok(Print(w, t)) case Err(e) => Err(e)
  }

  lemma {:induction false} DumpedArePrinted(w: Writer, values: seq<Json>)
    ensures DumpedAll(w, values) == PrintAll(w, Literals(values))
  {
    if values != [] {
      DumpedArePrinted(w, values[1..]);
      assert Literals(values)[1..] == Literals(values[1..]);
    }
  }

  lemma {:induction false} AllArePrinted(w: Writer, branches: seq<Schema>)
    ensures TypescriptAll(w, branches) ==
      match TranslateAll(branches) case Ok(ts) => Ok(PrintAll(w, ts)) case Err(e) => Err(e)
    decreases branches, 2
  {
    if branches != [] {
      TextIsPrintedType(w, branches[0]);
      AllArePrinted(w, branches[1..]);
    }
  }

  lemma {:induction false} FieldsArePrinted(w: Writer, properties: seq<Property>, required: seq<string>)
    ensures TypescriptFields(w, properties, required) ==
            match TranslateFields(properties, required) case Ok(fs) => Ok(PrintFields(w, fs)) case Err(e) => Err(e)
    decreases properties, 2
  {
    if properties != [] {
      TextIsPrintedType(w, properties[0].schema);
      FieldsArePrinted(w, properties[1..], required);
    }
  }

  lemma {:induction false} ObjectIsPrinted(w: Writer, s: Schema)
    ensures TypescriptObject(w, s) == Printed(w, TranslateObject(s))
    decreases s, 0
  {
    if s.additional.Each? {
      TextIsPrintedType(w, s.additional.schema);
    } else {
      FieldsArePrinted(w, s.properties, s.required);
    }
  }

  /**
    * The text emitted for a node is the printed form of the type the node translates to; they fail alike, and
    * exactly on the nodes that have no type.
    */
  lemma {:induction false} TextIsPrintedType(w: Writer, s: Schema)
    ensures Typescript(w, s) == Printed(w, Translate(s))
    ensures Typescript(w, s).Ok? <==> Translatable(s)
    decreases s, 1
  {
    TranslatesIff(s);
    if s.ref.Some? {
    } else if s.oneOf.OneOf? {
      AllArePrinted(w, s.oneOf.branches);
    } else if s.const_.Some? {
    } else if s.enum_.Enum? {
      DumpedArePrinted(w, s.enum_.values);
    } else if s.kind == Some(ArrayKind) && s.items.Items? {
      TextIsPrintedType(w, s.items.schema);
    } else if s.kind == Some(ObjectKind) {
      ObjectIsPrinted(w, s);
    }
  }

  // ---------------------------------------------------------------- the parser

  function Word(s: string): (w: string)
    ensures w <= s
  {
    if s != "" && WordChar(s[0]) then [s[0]] + Word(s[1..]) else ""
  }

  type Parsed<T> = Option<(T, string)>

  function ParseType(s: string): (r: Parsed<Type>)
    ensures r.Some? ==> |r.value.1| < |s|
    decreases |s|, 3
  {
    if s == "" then None
    else if s[0] == '(' then ParseUnion(s[1..])
    else if s[0] == '{' && |s| > 1 && s[1] == ' ' then ParseBraces(s)
    else if Letter(s[0]) then ParseWord(Word(s), s[|Word(s)|..])
    else ParseLiteral(s)
  }

  function ParseLiteral(s: string): (r: Parsed<Type>)
    ensures r.Some? ==> |r.value.1| < |s|
    decreases |s|, 0
  {
    match ReadJson(s) case Some(v) => Some((Literal(v.0), v.1)) case None => None
  }

  /** A type that starts with a word, and what follows the word. */
  function ParseWord(w: string, rest: string): (r: Parsed<Type>)
    ensures r.Some? ==> |r.value.1| <= |rest|
    decreases |rest|, 4
  {
    if w == "number" then Some((NumberType, rest))
    else if w == "boolean" then Some((BooleanType, rest))
    else if w == "string" then Some((StringType, rest))
    else if w == "null" then Some((NullType, rest))
    else if w == "true" then Some((Literal(Bool(true)), rest))
    else if w == "false" then Some((Literal(Bool(false)), rest))
    else if w == ARRAY then ParseArray(rest)
    else if w == EMPTY then
      var never := Eat(NEVER, rest);
      if never.Some? then Some((EmptyRecord, never.value)) else None
    else Some((Alias(w), rest))
  }

  function ParseArray(s: string): (r: Parsed<Type>)
    ensures r.Some? ==> |r.value.1| <= |s|
    decreases |s|, 2
  {
    var start := Eat(LESS, s);
    if start.None? then None else
      var element := ParseType(start.value);
      if element.None? then None else
        var end := Eat(GREATER, element.value.1);
        if end.None? then None else Some((ArrayOf(element.value.0), end.value))
  }

  function ParseUnion(s: string): (r: Parsed<Type>)
    ensures r.Some? ==> |r.value.1| < |s|
    decreases |s|, 5
  {
    var none := Eat(END_UNION, s);
    if none.Some? then Some((Union([]), none.value))
    else
      var members := ParseMembers(s);
      if members.None? then None else Some((Union(members.value.0), members.value.1))
  }

  function ParseMembers(s: string): (r: Parsed<seq<Type>>)
    ensures r.Some? ==> |r.value.1| < |s|
    decreases |s|, 4
  {
    var first := ParseType(s);
    if first.None? then None else
      var bar := Eat(BAR, first.value.1);
      if bar.Some? then
        var more := ParseMembers(bar.value);
        if more.None? then None else Some(([first.value.0] + more.value.0, more.value.1))
      else
        var end := Eat(END_UNION, first.value.1);
        if end.None? then None else Some(([first.value.0], end.value))
  }

  function ParseBraces(s: string): (r: Parsed<Type>)
    ensures r.Some? ==> |r.value.1| < |s|
    decreases |s|, 2
  {
    var body := Eat(OPEN, s);
    if body.None? then None else
      var none := Eat(CLOSE, body.value);
      if none.Some? then Some((Record([]), none.value))
      else
        var member := Eat(READONLY, body.value);
        if member.None? then None
        else if member.value != "" && member.value[0] == '[' then ParseIndex(member.value)
        else
          var fields := ParseFields(member.value);
          if fields.None? then None else Some((Record(fields.value.0), fields.value.1))
  }

  function ParseIndex(s: string): (r: Parsed<Type>)
    ensures r.Some? ==> |r.value.1| < |s|
    decreases |s|, 2
  {
    var start := Eat(KEY, s);
    if start.None? then None else
      var value := ParseType(start.value);
      if value.None? then None else
        var end := Eat(CLOSE, value.value.1);
        if end.None? then None else Some((IndexOf(value.value.0), end.value))
  }

  /** Members from the first key on. */
  function ParseFields(s: string): (r: Parsed<seq<Field>>)
    ensures r.Some? ==> |r.value.1| < |s|
    decreases |s|, 1
  {
    var key := ReadQuoted(s);
    if key.None? then None else
      var mark := Eat(OPTIONAL, key.value.1);
      var colon := Eat(COLON, if mark.Some? then mark.value else key.value.1);
      if colon.None? then None else
        var typ := ParseType(colon.value);
        if typ.None? then None else
          var field := Field(key.value.0, mark.Some?, typ.value.0);
          var next := Eat(NEXT, typ.value.1);
          if next.Some? then
            var member := Eat(READONLY, next.value);
            if member.None? then None else
              var more := ParseFields(member.value);
              if more.None? then None else Some(([field] + more.value.0, more.value.1))
          else
            var end := Eat(CLOSE, typ.value.1);
            if end.None? then None else Some(([field], end.value))
  }

  // ---------------------------------------------------------------- round trip

  /** Names that cannot be aliases, because they mean something else in the emitted grammar. */
  predicate Reserved(w: string) {
    || w == "number" || w == "boolean" || w == "string" || w == "null" || w == "true" || w == "false"
    || w == ARRAY || w == EMPTY
  }

  predicate IsWord(w: string) {
    w != "" && Letter(w[0]) && forall i :: 0 <= i < |w| ==> WordChar(w[i])
  }

  /** Types whose names are identifiers of their own and whose literals hold whole numbers only. */
  predicate Clean(t: Type) {
    match t
    case Alias(name) => IsWord(name) && !Reserved(name)
    case Union(members) => forall i :: 0 <= i < |members| ==> Clean(members[i])
    case Literal(v) => Whole(v)
    case ArrayOf(element) => Clean(element)
    case IndexOf(value) => Clean(value)
    case Record(fields) => forall i :: 0 <= i < |fields| ==> Clean(fields[i].typ)
    case _ => true
  }

  /** The type with its `null` literals read as the null type, as which they are written. */
  function Normal(t: Type): Type
    decreases t, 1
  {
    match t
    case Union(members) => Union(NormalAll(members))
    case Literal(v) => if v.Null? then NullType else t
    case ArrayOf(element) => ArrayOf(Normal(element))
    case IndexOf(value) => IndexOf(Normal(value))
    case Record(fields) => Record(NormalFields(fields))
    case _ => t
  }

  function NormalAll(types: seq<Type>): (normal: seq<Type>)
    ensures |normal| == |types| && forall i :: 0 <= i < |types| ==> normal[i] == Normal(types[i])
    decreases types, 2
  {
    if types == [] then [] else [Normal(types[0])] + NormalAll(types[1..])
  }

  function NormalField(f: Field): Field
    decreases f, 2
  {
    Field(f.key, f.optional, Normal(f.typ))
  }

  function NormalFields(fields: seq<Field>): (normal: seq<Field>)
    ensures |normal| == |fields| && forall i :: 0 <= i < |fields| ==> normal[i] == NormalField(fields[i])
    decreases fields, 3
  {
    if fields == [] then [] else [NormalField(fields[0])] + NormalFields(fields[1..])
  }

  /** Aliases read in normal form. */
  function NormalTypes(types: Declarations): Declarations {
    map name | name in types :: Normal(types[name])
  }

  /** Reading types in normal form changes nothing about their members. */
  lemma {:induction false} NormalHasSameMembers(n: nat, types: Declarations, t: Type, v: Json)
    ensures Member(n, NormalTypes(types), Normal(t), v) <==> Member(n, types, t, v)
    decreases n, t
  {
    match t
    case Alias(name) =>
      if name in types && n > 0 {
        NormalHasSameMembers(n - 1, types, types[name], v);
      }
    case Union(members) =>
      forall i | 0 <= i < |members|
        ensures Member(n, NormalTypes(types), NormalAll(members)[i], v) <==> Member(n, types, members[i], v)
      {
        NormalHasSameMembers(n, types, members[i], v);
      }
    case ArrayOf(element) =>
      if v.Array? {
        forall i | 0 <= i < |v.items|
          ensures Member(n, NormalTypes(types), Normal(element), v.items[i]) <==> Member(n, types, element, v.items[i])
        {
          NormalHasSameMembers(n, types, element, v.items[i]);
        }
      }
    case IndexOf(value) =>
      if v.Object? {
        forall key | key in v.fields
          ensures Member(n, NormalTypes(types), Normal(value), v.fields[key]) <==>
            Member(n, types, value, v.fields[key])
        {
          NormalHasSameMembers(n, types, value, v.fields[key]);
        }
      }
    case Record(fields) =>
      forall i | 0 <= i < |fields| && v.Object? && fields[i].key in v.fields
        ensures Member(n, NormalTypes(types), NormalFields(fields)[i].typ, v.fields[fields[i].key])
           <==> Member(n, types, fields[i].typ, v.fields[fields[i].key])
      {
        NormalHasSameMembers(n, types, fields[i].typ, v.fields[fields[i].key]);
      }
    case _ =>
  }

  /** What may follow a type: nothing that would continue its last word or number. */
  predicate Delimited(rest: string) {
    rest == "" || !WordChar(rest[0])
  }

  lemma {:induction false} WordStops(w: string, rest: string)
    requires (forall i :: 0 <= i < |w| ==> WordChar(w[i])) && Delimited(rest)
    ensures Word(w + rest) == w && (w + rest)[|w|..] == rest
  {
    if w == "" {
      assert w + rest == rest;
    } else {
      assert (w + rest)[0] == w[0] && (w + rest)[1..] == w[1..] + rest;
      WordStops(w[1..], rest);
      assert w == [w[0]] + w[1..];
    }
  }

  lemma ParsesWord(w: string, rest: string)
    requires IsWord(w) && Delimited(rest)
    ensures ParseType(w + rest) == ParseWord(w, rest)
  {
    WordStops(w, rest);
    assert (w + rest)[0] == w[0];
  }

  lemma ParsesAsLiteral(s: string)
    requires s != "" && s[0] != '(' && !Letter(s[0]) && (s[0] == '{' && |s| > 1 ==> s[1] != ' ')
    ensures ParseType(s) == ParseLiteral(s)
  {
    assert !(s[0] == '{' && |s| > 1 && s[1] == ' ');
  }

  /** How a dumped value that is no word begins: never like another type. */
  lemma DumpedStarts(w: Writer, v: Json, rest: string)
    requires Whole(v) && !v.Bool? && !v.Null?
    ensures var s := Dumped(w, v) + rest;
            s != "" && s[0] != '(' && !Letter(s[0]) && (s[0] == '{' && |s| > 1 ==> s[1] != ' ')
  {
    if v.Object? {
      ObjectStarts(w, v, rest);
    }
  }

  lemma ObjectStarts(w: Writer, v: Json, rest: string)
    requires v.Object?
    ensures var s := Dumped(w, v) + rest; |s| > 1 && s[0] == '{' && s[1] != ' '
  {
    var keys := KeysOf(w, v.fields);
    assert forall key :: key in keys <==> key in Text.Elements(keys);
    var body := JoinWith(COMMA, DumpedFields(w, v, keys));
    if keys != [] {
      FieldsBegin(w, v, keys);
      assert (OBJECT + body + END_OBJECT + rest)[1] == body[0];
    } else {
      assert (OBJECT + "" + END_OBJECT + rest)[1] == '}';
    }
  }

  lemma ParsesRead(s: string, v: Json, rest: string)
    requires s != "" && s[0] != '(' && !Letter(s[0]) && (s[0] == '{' && |s| > 1 ==> s[1] != ' ')
    requires ReadJson(s) == Some((v, rest))
    ensures ParseType(s) == Some((Literal(v), rest))
  {
    ParsesAsLiteral(s);
  }

  lemma ParsesLiteral(w: Writer, v: Json, rest: string)
    requires Whole(v) && Delimited(rest)
    ensures ParseType(Dumped(w, v) + rest) == Some((Normal(Literal(v)), rest))
  {
    match v
    case Null => ParsesWord("null", rest);
    case Bool(b) => ParsesWord(if b then "true" else "false", rest);
    case _ =>
      DumpedStarts(w, v, rest);
      ReadsJson(w, v, rest);
      ParsesRead(Dumped(w, v) + rest, v, rest);
  }

  lemma ParsesArray(body: string, t: Type, rest: string)
    requires ParseType(body + (GREATER + rest)) == Some((t, GREATER + rest))
    ensures ParseType(ARRAY + LESS + body + GREATER + rest) == Some((ArrayOf(t), rest))
  {
    Chain4(ARRAY, LESS, body, GREATER, rest);
    var tail := LESS + (body + (GREATER + rest));
    assert tail[0] == '<';
    ParsesWord(ARRAY, tail);
    EatsPrefix(LESS, body + (GREATER + rest));
    EatsPrefix(GREATER, rest);
  }

  lemma ParsesEmptyRecord(rest: string)
    requires Delimited(rest)
    ensures ParseType(EMPTY + NEVER + rest) == Some((EmptyRecord, rest))
  {
    Chain2(EMPTY, NEVER, rest);
    assert (NEVER + rest)[0] == '<';
    ParsesWord(EMPTY, NEVER + rest);
    EatsPrefix(NEVER, rest);
  }

  lemma ParsesKeyed(body: string, t: Type, rest: string)
    requires ParseType(body + (CLOSE + rest)) == Some((t, CLOSE + rest))
    ensures ParseIndex(KEY + (body + (CLOSE + rest))) == Some((IndexOf(t), rest))
  {
    EatsPrefix(KEY, body + (CLOSE + rest));
    EatsPrefix(CLOSE, rest);
  }

  lemma ParsesIndex(body: string, t: Type, rest: string)
    requires ParseType(body + (CLOSE + rest)) == Some((t, CLOSE + rest))
    ensures ParseType(OPEN + READONLY + KEY + body + CLOSE + rest) == Some((IndexOf(t), rest))
  {
    Chain5(OPEN, READONLY, KEY, body, CLOSE, rest);
    var keyed := KEY + (body + (CLOSE + rest));
    ParsesKeyed(body, t, rest);
    assert keyed[0] == '[';
    BracesReadMember(keyed);
  }

  /** Braces whose first word is `readonly` hold an index signature or members, as the next character says. */
  lemma BracesReadMember(keyed: string)
    requires keyed != ""
    ensures var s := OPEN + (READONLY + keyed);
            ParseType(s) == if keyed[0] == '[' then ParseIndex(keyed)
                            else match ParseFields(keyed) case Some(f) => Some((Record(f.0), f.1)) case None => None
  {
    var member := READONLY + keyed;
    assert member[0] == 'r' && (OPEN + member)[0] == '{' && (OPEN + member)[1] == ' ';
    EatsPrefix(OPEN, member);
    EatsNothing(CLOSE, member);
    EatsPrefix(READONLY, keyed);
  }

  lemma ParsesRecord(body: string, fields: seq<Field>, rest: string)
    requires body != "" && body[0] == '"'
    requires ParseFields(body + (CLOSE + rest)) == Some((fields, rest))
    ensures ParseType(OPEN + (READONLY + body) + CLOSE + rest) == Some((Record(fields), rest))
  {
    Chain3(OPEN, READONLY + body, CLOSE, rest);
    Chain2(READONLY, body, CLOSE + rest);
    assert (body + (CLOSE + rest))[0] == '"';
    BracesReadMember(body + (CLOSE + rest));
  }

  lemma ParsesNoRecord(rest: string)
    ensures ParseType(OPEN + "" + CLOSE + rest) == Some((Record([]), rest))
  {
    assert OPEN + "" == OPEN;
    Chain2(OPEN, CLOSE, rest);
    assert (OPEN + (CLOSE + rest))[0] == '{' && (OPEN + (CLOSE + rest))[1] == ' ';
    EatsPrefix(OPEN, CLOSE + rest);
    EatsPrefix(CLOSE, rest);
  }

  lemma ParsesUnion(body: string, members: seq<Type>, rest: string)
    requires body != "" && body[0] != ')'
    requires ParseMembers(body + (END_UNION + rest)) == Some((members, rest))
    ensures ParseType(UNION + body + END_UNION + rest) == Some((Union(members), rest))
  {
    Chain3(UNION, body, END_UNION, rest);
    var inner := body + (END_UNION + rest);
    assert inner[0] == body[0];
    assert (UNION + inner)[0] == '(' && (UNION + inner)[1..] == inner;
    EatsNothing(END_UNION, inner);
  }

  lemma ParsesNoUnion(rest: string)
    ensures ParseType(UNION + "" + END_UNION + rest) == Some((Union([]), rest))
  {
    assert UNION + "" == UNION;
    Chain2(UNION, END_UNION, rest);
    assert (UNION + (END_UNION + rest))[0] == '(' && (UNION + (END_UNION + rest))[1..] == END_UNION + rest;
    EatsPrefix(END_UNION, rest);
  }

  /** How a printed type begins: never with a closing parenthesis. */
  lemma PrintBegins(w: Writer, t: Type)
    requires Clean(t)
    ensures Print(w, t) != "" && Print(w, t)[0] != ')'
  {
  }

  // ---------------------------------------------------------------- lists

  lemma ParsesLastMember(text: string, t: Type, rest: string)
    requires ParseType(text + (END_UNION + rest)) == Some((t, END_UNION + rest))
    ensures ParseMembers(text + (END_UNION + rest)) == Some(([t], rest))
  {
    EatsNothing(BAR, END_UNION + rest);
    EatsPrefix(END_UNION, rest);
  }

  lemma ParsesNextMember(text: string, t: Type, more: string, ts: seq<Type>, rest: string)
    requires ParseType(text + (BAR + more)) == Some((t, BAR + more)) && ParseMembers(more) == Some((ts, rest))
    ensures ParseMembers(text + (BAR + more)) == Some(([t] + ts, rest))
  {
    EatsPrefix(BAR, more);
  }

  /** What follows the key of a member. */
  function AfterKey(optional: bool, text: string): string {
    (if optional then OPTIONAL else "") + COLON + text
  }

  lemma ParsesMember(key: string, optional: bool, text: string, t: Type, rest: string)
    requires ParseType(text + rest) == Some((t, rest))
    ensures var s := Quoted(key) + (AfterKey(optional, text) + rest);
            var colon := COLON + (text + rest);
            && ReadQuoted(s) == Some((key, if optional then OPTIONAL + colon else colon))
            && Eat(OPTIONAL, OPTIONAL + colon) == Some(colon) && Eat(OPTIONAL, colon) == None
            && Eat(COLON, colon) == Some(text + rest)
  {
    var colon := COLON + (text + rest);
    ReadsQuoted(key, AfterKey(optional, text) + rest);
    if optional {
      Chain3(OPTIONAL, COLON, text, rest);
    } else {
      assert "" + COLON == COLON;
      Chain2(COLON, text, rest);
    }
    EatsPrefix(OPTIONAL, colon);
    assert colon[0] == ':';
    EatsNothing(OPTIONAL, colon);
    EatsPrefix(COLON, text + rest);
  }

  lemma ParsesLastField(key: string, optional: bool, text: string, t: Type, rest: string)
    requires ParseType(text + (CLOSE + rest)) == Some((t, CLOSE + rest))
    ensures ParseFields(Quoted(key) + (AfterKey(optional, text) + (CLOSE + rest))) ==
      Some(([Field(key, optional, t)], rest))
  {
    ParsesMember(key, optional, text, t, CLOSE + rest);
    assert (CLOSE + rest)[0] == ' ';
    EatsNothing(NEXT, CLOSE + rest);
    EatsPrefix(CLOSE, rest);
  }

  lemma ParsesNextField(
    key: string, optional: bool, text: string, t: Type, more: string, fields: seq<Field>, rest: string)
    requires ParseType(text + (NEXT + (READONLY + more))) == Some((t, NEXT + (READONLY + more)))
    requires ParseFields(more) == Some((fields, rest))
    ensures ParseFields(Quoted(key) + (AfterKey(optional, text) + (NEXT + (READONLY + more)))) ==
            Some(([Field(key, optional, t)] + fields, rest))
  {
    ParsesMember(key, optional, text, t, NEXT + (READONLY + more));
    EatsPrefix(NEXT, READONLY + more);
    EatsPrefix(READONLY, more);
  }

  // ---------------------------------------------------------------- the whole grammar

  /** The members of a record as they are printed, from the first key on. */
  function FieldsTail(w: Writer, fields: seq<Field>): string
    requires fields != []
  {
    var first := Quoted(fields[0].key) + AfterKey(fields[0].optional, Print(w, fields[0].typ));
    if |fields| == 1 then first else first + NEXT + READONLY + FieldsTail(w, fields[1..])
  }

  lemma FieldTextParts(key: string, optional: bool, text: string)
    ensures FieldText(key, optional, text) == READONLY + (Quoted(key) + AfterKey(optional, text))
  {
    var mark := if optional then OPTIONAL else "";
    assert READONLY + Quoted(key) + mark + COLON + text == READONLY + (Quoted(key) + (mark + COLON + text));
  }

  lemma {:induction false} FieldsAreTail(w: Writer, fields: seq<Field>)
    requires fields != []
    ensures JoinWith(NEXT, PrintFields(w, fields)) == READONLY + FieldsTail(w, fields)
  {
    var f := fields[0];
    var body := Quoted(f.key) + AfterKey(f.optional, Print(w, f.typ));
    FieldTextParts(f.key, f.optional, Print(w, f.typ));
    if |fields| > 1 {
      FieldsAreTail(w, fields[1..]);
      assert PrintFields(w, fields)[1..] == PrintFields(w, fields[1..]);
      Chain3(READONLY, body, NEXT, READONLY + FieldsTail(w, fields[1..]));
      Chain3(body, NEXT, READONLY, FieldsTail(w, fields[1..]));
    }
  }

  lemma FieldsTailBegins(w: Writer, fields: seq<Field>)
    requires fields != []
    ensures FieldsTail(w, fields) != "" && FieldsTail(w, fields)[0] == '"'
  {
    ReadsQuoted(fields[0].key, "");
    assert FieldsTail(w, fields)[0] == Quoted(fields[0].key)[0];
  }

  lemma FieldsTailOne(w: Writer, f: Field, rest: string)
    ensures FieldsTail(w, [f]) + rest == Quoted(f.key) + (AfterKey(f.optional, Print(w, f.typ)) + rest)
  {
    Chain2(Quoted(f.key), AfterKey(f.optional, Print(w, f.typ)), rest);
  }

  lemma FieldsTailMore(w: Writer, fields: seq<Field>, rest: string)
    requires |fields| > 1
    ensures var f := fields[0];
            FieldsTail(w, fields) + rest ==
            Quoted(f.key) +
            (AfterKey(f.optional, Print(w, f.typ)) + (NEXT + (READONLY + (FieldsTail(w, fields[1..]) + rest))))
  {
    var f := fields[0];
    var after, tail := AfterKey(f.optional, Print(w, f.typ)), FieldsTail(w, fields[1..]);
    Chain4(Quoted(f.key) + after, NEXT, READONLY, tail, rest);
    Chain2(Quoted(f.key), after, NEXT + (READONLY + (tail + rest)));
  }

  lemma ParsesOnlyField(w: Writer, fields: seq<Field>, rest: string)
    requires |fields| == 1
    requires ParseType(Print(w, fields[0].typ) + (CLOSE + rest)) == Some((Normal(fields[0].typ), CLOSE + rest))
    ensures ParseFields(FieldsTail(w, fields) + (CLOSE + rest)) == Some((NormalFields(fields), rest))
  {
    var f := fields[0];
    ParsesLastField(f.key, f.optional, Print(w, f.typ), Normal(f.typ), rest);
    FieldsTailOne(w, f, CLOSE + rest);
    assert fields == [f] && NormalFields(fields) == [NormalField(f)];
  }

  lemma ParsesMoreFields(w: Writer, fields: seq<Field>, more: string, rest: string)
    requires |fields| > 1 && more == FieldsTail(w, fields[1..]) + (CLOSE + rest)
    requires ParseFields(more) == Some((NormalFields(fields[1..]), rest))
    requires var after := NEXT + (READONLY + more);
             ParseType(Print(w, fields[0].typ) + after) == Some((Normal(fields[0].typ), after))
    ensures ParseFields(FieldsTail(w, fields) + (CLOSE + rest)) == Some((NormalFields(fields), rest))
  {
    var f := fields[0];
    ParsesNextField(f.key, f.optional, Print(w, f.typ), Normal(f.typ), more, NormalFields(fields[1..]), rest);
    FieldsTailMore(w, fields, CLOSE + rest);
  }

  lemma CloseDelimits(rest: string)
    ensures Delimited(CLOSE + rest)
  {
    assert (CLOSE + rest)[0] == ' ';
  }

  lemma NextDelimits(rest: string)
    ensures Delimited(NEXT + rest)
  {
    assert (NEXT + rest)[0] == ';';
  }

  lemma {:induction false} ParsesFields(w: Writer, fields: seq<Field>, rest: string)
    requires fields != [] && forall i :: 0 <= i < |fields| ==> Clean(fields[i].typ)
    ensures ParseFields(FieldsTail(w, fields) + (CLOSE + rest)) == Some((NormalFields(fields), rest))
    decreases fields, 2
  {
    if |fields| == 1 {
      CloseDelimits(rest);
      ParsesPrinted(w, fields[0].typ, CLOSE + rest);
      ParsesOnlyField(w, fields, rest);
    } else {
      var more := FieldsTail(w, fields[1..]) + (CLOSE + rest);
      ParsesFields(w, fields[1..], rest);
      NextDelimits(READONLY + more);
      ParsesPrinted(w, fields[0].typ, NEXT + (READONLY + more));
      ParsesMoreFields(w, fields, more, rest);
    }
  }

  lemma {:induction false} ParsesMembers(w: Writer, members: seq<Type>, rest: string)
    requires members != [] && forall i :: 0 <= i < |members| ==> Clean(members[i])
    ensures ParseMembers(JoinWith(BAR, PrintAll(w, members)) + (END_UNION + rest)) == Some((NormalAll(members), rest))
    decreases members, 2
  {
    var t := members[0];
    if |members| == 1 {
      assert (END_UNION + rest)[0] == ')';
      ParsesPrinted(w, t, END_UNION + rest);
      ParsesLastMember(Print(w, t), Normal(t), rest);
      assert members == [t] && NormalAll(members) == [Normal(t)];
    } else {
      var joined := JoinWith(BAR, PrintAll(w, members[1..]));
      var more := joined + (END_UNION + rest);
      ParsesMembers(w, members[1..], rest);
      assert (BAR + more)[0] == ' ';
      ParsesPrinted(w, t, BAR + more);
      ParsesNextMember(Print(w, t), Normal(t), more, NormalAll(members[1..]), rest);
      assert PrintAll(w, members)[1..] == PrintAll(w, members[1..]);
      Chain3(Print(w, t), BAR, joined, END_UNION + rest);
    }
  }

  lemma PrintAllBegins(w: Writer, members: seq<Type>)
    requires members != []
    ensures PrintAll(w, members)[0] == Print(w, members[0])
  {
  }

  lemma JoinBegins(w: Writer, members: seq<Type>, first: string)
    requires members != [] && Print(w, members[0]) == first && first != "" && first[0] != ')'
    ensures var body := JoinWith(BAR, PrintAll(w, members)); body != "" && body[0] != ')'
  {
    PrintAllBegins(w, members);
    JoinWithBegins(BAR, PrintAll(w, members));
  }

  /** The emitted text is unambiguous: parsing it gives the printed type in normal form, whatever follows it. */
  lemma {:induction false} ParsesPrinted(w: Writer, t: Type, rest: string)
    requires Clean(t) && Delimited(rest)
    ensures ParseType(Print(w, t) + rest) == Some((Normal(t), rest))
    decreases t, 1
  {
    match t
    case Alias(name) => ParsesWord(name, rest);
    case Union(members) =>
      if members == [] {
        ParsesNoUnion(rest);
      } else {
        ParsesMembers(w, members, rest);
        PrintBegins(w, members[0]);
        JoinBegins(w, members, Print(w, members[0]));
        ParsesUnion(JoinWith(BAR, PrintAll(w, members)), NormalAll(members), rest);
      }
    case Literal(v) => ParsesLiteral(w, v, rest);
    case ArrayOf(element) =>
      assert (GREATER + rest)[0] == '>';
      ParsesPrinted(w, element, GREATER + rest);
      ParsesArray(Print(w, element), Normal(element), rest);
    case IndexOf(value) =>
      assert (CLOSE + rest)[0] == ' ';
      ParsesPrinted(w, value, CLOSE + rest);
      ParsesIndex(Print(w, value), Normal(value), rest);
    case Record(fields) =>
      if fields == [] {
        ParsesNoRecord(rest);
      } else {
        ParsesFields(w, fields, rest);
        FieldsTailBegins(w, fields);
        FieldsAreTail(w, fields);
        ParsesRecord(FieldsTail(w, fields), NormalFields(fields), rest);
      }
    case EmptyRecord => ParsesEmptyRecord(rest);
    case NumberType => ParsesWord("number", rest);
    case BooleanType => ParsesWord("boolean", rest);
    case StringType => ParsesWord("string", rest);
    case NullType => ParsesWord("null", rest);
  }

  // ---------------------------------------------------------------- which types share their text

  lemma {:induction false} NormalListsPrintAlike(w: Writer, types: seq<Type>)
    ensures PrintAll(w, NormalAll(types)) == PrintAll(w, types)
    decreases types, 2
  {
    if types != [] {
      NormalPrintsAlike(w, types[0]);
      NormalListsPrintAlike(w, types[1..]);
      assert NormalAll(types)[1..] == NormalAll(types[1..]);
    }
  }

  lemma {:induction false} NormalFieldsPrintAlike(w: Writer, fields: seq<Field>)
    ensures PrintFields(w, NormalFields(fields)) == PrintFields(w, fields)
    decreases fields, 2
  {
    if fields != [] {
      NormalPrintsAlike(w, fields[0].typ);
      NormalFieldsPrintAlike(w, fields[1..]);
      assert NormalFields(fields)[1..] == NormalFields(fields[1..]);
    }
  }

  lemma {:induction false} NormalPrintsAlike(w: Writer, t: Type)
    ensures Print(w, Normal(t)) == Print(w, t)
    decreases t, 1
  {
    match t
    case Union(members) => NormalListsPrintAlike(w, members);
    case ArrayOf(element) => NormalPrintsAlike(w, element);
    case IndexOf(value) => NormalPrintsAlike(w, value);
    case Record(fields) => NormalFieldsPrintAlike(w, fields);
    case _ =>
  }

  /** Two types are emitted as the same text exactly when they differ at most in how they write the null type. */
  lemma PrintIsInjective(w: Writer, t: Type, u: Type)
    requires Clean(t) && Clean(u)
    ensures Print(w, t) == Print(w, u) <==> Normal(t) == Normal(u)
  {
    ParsesPrinted(w, t, "");
    ParsesPrinted(w, u, "");
    NormalPrintsAlike(w, t);
    NormalPrintsAlike(w, u);
    assert Print(w, t) + "" == Print(w, t) && Print(w, u) + "" == Print(w, u);
  }
}
