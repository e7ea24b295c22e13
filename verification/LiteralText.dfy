/** How `json.dumps` writes any JSON value in ASCII, and a reader that recovers the value. */
module LiteralText {
  import opened Characters
  import opened Json
  import opened Results
  import Text
  import opened JsonText

  const LIST: string := "["
  const END_LIST: string := "]"
  const OBJECT: string := "{"
  const END_OBJECT: string := "}"
  const COMMA: string := ", "
  const COLON: string := ": "

  /**
    * What the value alone does not settle about its text: the order in which the document lists an
    * object's keys, and the digits of a number that is not whole.
    */
  datatype Writer = Writer(keys: map<string, Json> -> seq<string>, fraction: real -> string)

  /** The keys of an object in the order in which they are written, whatever it is. */
  function KeysOf(w: Writer, fields: map<string, Json>): (keys: seq<string>)
    ensures Text.Elements(keys) == fields.Keys
  {
    if Text.Elements(w.keys(fields)) == fields.Keys then w.keys(fields) else Text.Sorted(fields.Keys)
  }

  /** `json.dumps(v)`. */
  function Dumped(w: Writer, v: Json): string
    decreases v, 1, 0
  {
    match v
    case String(s) => Quoted(s)
    case Bool(b) => if b then "true" else "false"
    case Null => "null"
    case Number(n) => if Integral(n) then Written(n.Floor) else w.fraction(n)
    case Array(items) => LIST + JoinWith(COMMA, DumpedItems(w, items)) + END_LIST
    case Object(fields) => OBJECT + JoinWith(COMMA, DumpedFields(w, v, KeysOf(w, fields))) + END_OBJECT
  }

  function DumpedItems(w: Writer, items: seq<Json>): (texts: seq<string>)
    ensures |texts| == |items|
    decreases items, 2, 0
  {
    if items == [] then [] else [Dumped(w, items[0])] + DumpedItems(w, items[1..])
  }

  function DumpedFields(w: Writer, v: Json, keys: seq<string>): (texts: seq<string>)
    requires v.Object? && forall i :: 0 <= i < |keys| ==> keys[i] in v.fields
    ensures |texts| == |keys|
    decreases v, 0, |keys|
  {
    if keys == [] then []
    else [Quoted(keys[0]) + (COLON + Dumped(w, v.fields[keys[0]]))] + DumpedFields(w, v, keys[1..])
  }

  // ---------------------------------------------------------------- reading

  type Read<T> = Option<(T, string)>

  function ReadJson(s: string): (r: Read<Json>)
    ensures r.Some? ==> |r.value.1| < |s|
    decreases |s|, 3
  {
    if s == "" then None
    else if s[0] == '[' then ReadList(s[1..])
    else if s[0] == '{' then ReadObject(s[1..])
    else ReadScalar(s)
  }

  function ReadScalar(s: string): (r: Read<Json>)
    requires s != ""
    ensures r.Some? ==> |r.value.1| < |s|
    decreases |s|, 0
  {
    match s[0]
    case '"' => (match ReadQuoted(s) case Some(q) => Some((String(q.0), q.1)) case None => None)
    case 't' => ReadWord("true", Bool(true), s)
    case 'f' => ReadWord("false", Bool(false), s)
    case 'n' => ReadWord("null", Null, s)
    case _ => (match ReadInteger(s) case Some(n) => Some((Number(n.0 as real), n.1)) case None => None)
  }

  function ReadWord(word: string, v: Json, s: string): (r: Read<Json>)
    requires word != ""
    ensures r.Some? ==> |r.value.1| < |s|
  {
    match Eat(word, s) case Some(rest) => Some((v, rest)) case None => None
  }

  function ReadList(s: string): (r: Read<Json>)
    ensures r.Some? ==> |r.value.1| <= |s|
    decreases |s|, 5
  {
    var none := Eat(END_LIST, s);
    if none.Some? then Some((Array([]), none.value))
    else match ReadItems(s) case Some(items) => Some((Array(items.0), items.1)) case None => None
  }

  function ReadItems(s: string): (r: Read<seq<Json>>)
    ensures r.Some? ==> |r.value.1| < |s|
    decreases |s|, 4
  {
    var first := ReadJson(s);
    if first.None? then None else
      var next := Eat(COMMA, first.value.1);
      if next.Some? then
        match ReadItems(next.value) case Some(more) => Some(([first.value.0] + more.0, more.1)) case None => None
      else
        match Eat(END_LIST, first.value.1) case Some(end) => Some(([first.value.0], end)) case None => None
  }

  function ReadObject(s: string): (r: Read<Json>)
    ensures r.Some? ==> |r.value.1| <= |s|
    decreases |s|, 5
  {
    var none := Eat(END_OBJECT, s);
    if none.Some? then Some((Object(map[]), none.value))
    else match ReadFields(s) case Some(fields) => Some((Object(fields.0), fields.1)) case None => None
  }

  function ReadFields(s: string): (r: Read<map<string, Json>>)
    ensures r.Some? ==> |r.value.1| < |s|
    decreases |s|, 4
  {
    var key := ReadQuoted(s);
    if key.None? then None else
      var colon := Eat(COLON, key.value.1);
      if colon.None? then None else
        var value := ReadJson(colon.value);
        if value.None? then None else
          var next := Eat(COMMA, value.value.1);
          if next.Some? then
            match ReadFields(next.value)
            case Some(more) => Some((more.0[key.value.0 := value.value.0], more.1))
            case None => None
          else
            match Eat(END_OBJECT, value.value.1)
            case Some(end) => Some((map[key.value.0 := value.value.0], end))
            case None => None
  }

  // ---------------------------------------------------------------- round trip

  /** Every number in the value is whole. */
  predicate Whole(v: Json) {
    match v
    case Number(n) => Integral(n)
    case Array(items) => forall i :: 0 <= i < |items| ==> Whole(items[i])
    case Object(fields) => forall key :: key in fields ==> Whole(fields[key])
    case _ => true
  }

  /** What may follow a value: nothing that would continue its last number. */
  predicate NoDigit(rest: string) {
    rest == "" || !Digit(rest[0])
  }

  lemma DumpedBegins(w: Writer, v: Json)
    requires Whole(v)
    ensures Dumped(w, v) != "" && Dumped(w, v)[0] != ']'
  {
  }

  lemma ReadsString(s: string, rest: string)
    ensures ReadJson(Quoted(s) + rest) == Some((String(s), rest))
  {
    ReadsQuoted(s, rest);
    assert (Quoted(s) + rest)[0] == '"';
  }

  lemma ReadsScalarText(s: string, n: int, rest: string)
    requires s != "" && (s[0] == '-' || Digit(s[0])) && ReadInteger(s) == Some((n, rest))
    ensures ReadScalar(s) == Some((Number(n as real), rest))
  {
  }

  lemma ReadsNumber(n: int, rest: string)
    requires NoDigit(rest)
    ensures ReadJson(Written(n) + rest) == Some((Number(n as real), rest))
  {
    ReadsInteger(n, rest);
    assert (Written(n) + rest)[0] == Written(n)[0];
    ReadsScalarText(Written(n) + rest, n, rest);
  }

  lemma ReadsWord(word: string, v: Json, rest: string)
    requires (word, v) in {("true", Bool(true)), ("false", Bool(false)), ("null", Null)}
    ensures ReadJson(word + rest) == Some((v, rest))
  {
    EatsPrefix(word, rest);
    assert (word + rest)[0] == word[0];
  }

  lemma ReadsLastItem(text: string, v: Json, rest: string)
    requires ReadJson(text + (END_LIST + rest)) == Some((v, END_LIST + rest))
    ensures ReadItems(text + (END_LIST + rest)) == Some(([v], rest))
  {
    EatsNothing(COMMA, END_LIST + rest);
    EatsPrefix(END_LIST, rest);
  }

  lemma ReadsNextItem(text: string, v: Json, more: string, items: seq<Json>, rest: string)
    requires ReadJson(text + (COMMA + more)) == Some((v, COMMA + more)) && ReadItems(more) == Some((items, rest))
    ensures ReadItems(text + (COMMA + more)) == Some(([v] + items, rest))
  {
    EatsPrefix(COMMA, more);
  }

  lemma {:induction false} ReadsItems(w: Writer, items: seq<Json>, rest: string)
    requires items != [] && forall i :: 0 <= i < |items| ==> Whole(items[i])
    ensures ReadItems(JoinWith(COMMA, DumpedItems(w, items)) + (END_LIST + rest)) == Some((items, rest))
    decreases items, 2, 0
  {
    var v := items[0];
    if |items| == 1 {
      assert (END_LIST + rest)[0] == ']';
      ReadsJson(w, v, END_LIST + rest);
      ReadsLastItem(Dumped(w, v), v, rest);
      assert items == [v];
    } else {
      var joined := JoinWith(COMMA, DumpedItems(w, items[1..]));
      var more := joined + (END_LIST + rest);
      ReadsItems(w, items[1..], rest);
      assert (COMMA + more)[0] == ',';
      ReadsJson(w, v, COMMA + more);
      ReadsNextItem(Dumped(w, v), v, more, items[1..], rest);
      assert DumpedItems(w, items)[1..] == DumpedItems(w, items[1..]);
      Chain3(Dumped(w, v), COMMA, joined, END_LIST + rest);
      assert items == [v] + items[1..];
    }
  }

  lemma ReadsNonemptyList(body: string, items: seq<Json>, rest: string)
    requires body != "" && body[0] != ']' && ReadItems(body + (END_LIST + rest)) == Some((items, rest))
    ensures ReadJson(LIST + body + END_LIST + rest) == Some((Array(items), rest))
  {
    Chain3(LIST, body, END_LIST, rest);
    var inner := body + (END_LIST + rest);
    assert inner[0] == body[0];
    assert (LIST + inner)[0] == '[' && (LIST + inner)[1..] == inner;
    EatsNothing(END_LIST, inner);
  }

  lemma ReadsEmptyList(rest: string)
    ensures ReadJson(LIST + "" + END_LIST + rest) == Some((Array([]), rest))
  {
    assert LIST + "" == LIST;
    Chain2(LIST, END_LIST, rest);
    assert (LIST + (END_LIST + rest))[0] == '[' && (LIST + (END_LIST + rest))[1..] == END_LIST + rest;
    EatsPrefix(END_LIST, rest);
  }

  /** The members of `fields` at these keys. */
  function At(fields: map<string, Json>, keys: seq<string>): map<string, Json>
    requires forall i :: 0 <= i < |keys| ==> keys[i] in fields
  {
    map key | key in keys :: fields[key]
  }

  lemma ReadsField(key: string, text: string, v: Json, rest: string)
    requires ReadJson(text + rest) == Some((v, rest))
    ensures ReadQuoted(Quoted(key) + (COLON + text) + rest) == Some((key, COLON + (text + rest)))
    ensures Eat(COLON, COLON + (text + rest)) == Some(text + rest)
  {
    ReadsQuoted(key, COLON + (text + rest));
    Chain2(Quoted(key), COLON + text, rest);
    Chain2(COLON, text, rest);
    EatsPrefix(COLON, text + rest);
  }

  lemma ReadsLastField(key: string, text: string, v: Json, rest: string)
    requires ReadJson(text + (END_OBJECT + rest)) == Some((v, END_OBJECT + rest))
    ensures ReadFields(Quoted(key) + (COLON + text) + (END_OBJECT + rest)) == Some((map[key := v], rest))
  {
    ReadsField(key, text, v, END_OBJECT + rest);
    EatsNothing(COMMA, END_OBJECT + rest);
    EatsPrefix(END_OBJECT, rest);
  }

  lemma ReadsNextField(key: string, text: string, v: Json, more: string, fields: map<string, Json>, rest: string)
    requires ReadJson(text + (COMMA + more)) == Some((v, COMMA + more)) && ReadFields(more) == Some((fields, rest))
    ensures ReadFields(Quoted(key) + (COLON + text) + (COMMA + more)) == Some((fields[key := v], rest))
  {
    ReadsField(key, text, v, COMMA + more);
    EatsPrefix(COMMA, more);
  }

  lemma {:induction false} ReadsFields(w: Writer, v: Json, keys: seq<string>, rest: string)
    requires v.Object? && Whole(v) && keys != [] && forall i :: 0 <= i < |keys| ==> keys[i] in v.fields
    ensures ReadFields(JoinWith(COMMA, DumpedFields(w, v, keys)) + (END_OBJECT + rest)) ==
      Some((At(v.fields, keys), rest))
    decreases v, 0, |keys|
  {
    var key, x := keys[0], v.fields[keys[0]];
    var text := Dumped(w, x);
    if |keys| == 1 {
      assert (END_OBJECT + rest)[0] == '}';
      ReadsJson(w, x, END_OBJECT + rest);
      ReadsLastField(key, text, x, rest);
      assert At(v.fields, keys) == map[key := x];
    } else {
      var joined := JoinWith(COMMA, DumpedFields(w, v, keys[1..]));
      var more := joined + (END_OBJECT + rest);
      ReadsFields(w, v, keys[1..], rest);
      assert (COMMA + more)[0] == ',';
      ReadsJson(w, x, COMMA + more);
      ReadsNextField(key, text, x, more, At(v.fields, keys[1..]), rest);
      assert DumpedFields(w, v, keys)[1..] == DumpedFields(w, v, keys[1..]);
      Chain3(Quoted(key) + (COLON + text), COMMA, joined, END_OBJECT + rest);
      AtHead(v.fields, keys);
    }
  }

  lemma AtHead(fields: map<string, Json>, keys: seq<string>)
    requires keys != [] && forall i :: 0 <= i < |keys| ==> keys[i] in fields
    ensures At(fields, keys) == At(fields, keys[1..])[keys[0] := fields[keys[0]]]
  {
    assert forall key :: key in keys <==> key == keys[0] || key in keys[1..];
  }

  lemma ReadsNonemptyObject(body: string, fields: map<string, Json>, rest: string)
    requires body != "" && body[0] == '"' && ReadFields(body + (END_OBJECT + rest)) == Some((fields, rest))
    ensures ReadJson(OBJECT + body + END_OBJECT + rest) == Some((Object(fields), rest))
  {
    Chain3(OBJECT, body, END_OBJECT, rest);
    var inner := body + (END_OBJECT + rest);
    assert inner[0] == body[0];
    assert (OBJECT + inner)[0] == '{' && (OBJECT + inner)[1..] == inner;
    EatsNothing(END_OBJECT, inner);
  }

  lemma ReadsEmptyObject(rest: string)
    ensures ReadJson(OBJECT + "" + END_OBJECT + rest) == Some((Object(map[]), rest))
  {
    assert OBJECT + "" == OBJECT;
    Chain2(OBJECT, END_OBJECT, rest);
    assert (OBJECT + (END_OBJECT + rest))[0] == '{' && (OBJECT + (END_OBJECT + rest))[1..] == END_OBJECT + rest;
    EatsPrefix(END_OBJECT, rest);
  }

  lemma ItemsBegin(w: Writer, items: seq<Json>)
    requires items != [] && Whole(items[0])
    ensures var body := JoinWith(COMMA, DumpedItems(w, items)); body != "" && body[0] != ']'
  {
    DumpedBegins(w, items[0]);
    JoinWithBegins(COMMA, DumpedItems(w, items));
  }

  lemma FieldsBegin(w: Writer, v: Json, keys: seq<string>)
    requires v.Object? && keys != [] && forall i :: 0 <= i < |keys| ==> keys[i] in v.fields
    ensures var body := JoinWith(COMMA, DumpedFields(w, v, keys)); body != "" && body[0] == '"'
  {
    ReadsQuoted(keys[0], "");
    assert DumpedFields(w, v, keys)[0][0] == Quoted(keys[0])[0];
    JoinWithBegins(COMMA, DumpedFields(w, v, keys));
  }

  lemma {:induction false} ReadsArray(w: Writer, v: Json, rest: string)
    requires v.Array? && Whole(v)
    ensures ReadJson(Dumped(w, v) + rest) == Some((v, rest))
    decreases v, 0, 0
  {
    if v.items == [] {
      ReadsEmptyList(rest);
    } else {
      ReadsItems(w, v.items, rest);
      ItemsBegin(w, v.items);
      ReadsNonemptyList(JoinWith(COMMA, DumpedItems(w, v.items)), v.items, rest);
    }
  }

  lemma {:induction false} ReadsFieldsOf(w: Writer, v: Json, rest: string)
    requires v.Object? && Whole(v)
    ensures ReadJson(Dumped(w, v) + rest) == Some((v, rest))
    decreases v, 1, 0
  {
    var keys := KeysOf(w, v.fields);
    assert forall key :: key in keys <==> key in Text.Elements(keys);
    if keys == [] {
      assert v.fields.Keys == {};
      assert v.fields == map[];
      ReadsEmptyObject(rest);
    } else {
      ReadsFields(w, v, keys, rest);
      FieldsBegin(w, v, keys);
      assert At(v.fields, keys) == v.fields;
      ReadsNonemptyObject(JoinWith(COMMA, DumpedFields(w, v, keys)), v.fields, rest);
    }
  }

  /** A dumped value is read back, in whatever order its objects' keys were written. */
  lemma {:induction false} ReadsJson(w: Writer, v: Json, rest: string)
    requires Whole(v) && NoDigit(rest)
    ensures ReadJson(Dumped(w, v) + rest) == Some((v, rest))
    decreases v, 2, 0
  {
    match v
    case String(s) => ReadsString(s, rest);
    case Number(n) => ReadsNumber(n.Floor, rest);
    case Bool(b) => ReadsWord(if b then "true" else "false", v, rest);
    case Null => ReadsWord("null", v, rest);
    case Array(_) => ReadsArray(w, v, rest);
    case Object(_) => ReadsFieldsOf(w, v, rest);
  }
}
