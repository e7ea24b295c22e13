/** The declaration file that `main` in tools/contracts/generate.py writes, and reading it back. */
module ContractFile {
  import opened Characters
  import opened Json
  import opened Results
  import opened JsonSchema
  import opened TypeScript
  import opened ContractTypes
  import opened JsonText
  import opened LiteralText
  import opened TypeScriptText

  const HEADER: string := "// Generated by tools/contracts/generate.py. Do not edit."
  const NEWLINE: string := "\n"
  const EXPORT: string := "// prettier-ignore\nexport type "
  const EQUALS: string := " = "
  const SEMICOLON: string := ";"

  /** A declared alias. */
  datatype Declaration = Declaration(name: string, typ: Type)

  /** A definition of the schema, in file order. */
  datatype Definition = Definition(name: string, schema: Schema)

  // ---------------------------------------------------------------- writing

  /** `str.rstrip`. */
  function RStrip(s: string): string {
    if s != "" && Blank(s[|s| - 1]) then RStrip(s[..|s| - 1]) else s
  }

  /** A declaration up to its semicolon. */
  function DeclarationText(name: string, text: string): string {
    EXPORT + name + EQUALS + text + SEMICOLON
  }

  /** The text after the header, without the last line break: two line breaks between declarations. */
  function BodyText(w: Writer, declarations: seq<Declaration>): string {
    if declarations == [] then "" else
      var last := declarations[|declarations| - 1];
      var before := declarations[..|declarations| - 1];
      BodyText(w, before) +
      (if before == [] then NEWLINE else NEWLINE + NEWLINE) + DeclarationText(last.name, Print(w, last.typ))
  }

  function FileText(w: Writer, declarations: seq<Declaration>): string {
    HEADER + BodyText(w, declarations) + NEWLINE
  }

  predicate Translates(definitions: seq<Definition>, declarations: seq<Declaration>) {
    && |definitions| == |declarations|
    && forall i :: 0 <= i < |definitions| ==>
         definitions[i].name == declarations[i].name && Translate(definitions[i].schema) == Ok(declarations[i].typ)
  }

  lemma RStripOne(s: string, c: char)
    requires Blank(c)
    ensures RStrip(s + [c]) == RStrip(s)
  {
    assert (s + [c])[..|s|] == s;
  }

  lemma RStripDone(s: string, c: char)
    requires !Blank(c)
    ensures RStrip(s + [c]) == s + [c]
  {
  }

  lemma StripsBlankLines(s: string, c: char)
    requires !Blank(c)
    ensures RStrip(s + [c] + NEWLINE) == s + [c]
    ensures RStrip(s + [c] + (NEWLINE + NEWLINE)) == s + [c]
  {
    RStripDone(s, c);
    RStripOne(s + [c], '\n');
    RStripOne(s + [c] + NEWLINE, '\n');
    assert s + [c] + (NEWLINE + NEWLINE) == s + [c] + NEWLINE + NEWLINE;
  }

  /** The text so far, with the line breaks that are stripped when nothing follows. */
  function Written(w: Writer, declarations: seq<Declaration>): string {
    HEADER + BodyText(w, declarations) + (if declarations == [] then NEWLINE else NEWLINE + NEWLINE)
  }

  lemma WrittenGrows(w: Writer, declarations: seq<Declaration>, d: Declaration)
    ensures Written(w, declarations + [d]) ==
            Written(w, declarations) + EXPORT + d.name + EQUALS + Print(w, d.typ) + SEMICOLON + NEWLINE + NEWLINE
  {
    var all := declarations + [d];
    assert all[..|declarations|] == declarations;
    var gap := if declarations == [] then NEWLINE else NEWLINE + NEWLINE;
    Regroup7(HEADER + BodyText(w, declarations) + gap, EXPORT, d.name, EQUALS, Print(w, d.typ), SEMICOLON, NEWLINE);
    Regroup3(HEADER, BodyText(w, declarations) + gap, DeclarationText(d.name, Print(w, d.typ)));
    Regroup3(HEADER, BodyText(w, declarations), gap);
  }

  lemma Regroup7(a: string, b: string, c: string, d: string, e: string, f: string, g: string)
    ensures a + b + c + d + e + f + g + g == a + (b + c + d + e + f) + (g + g)
  {
  }

  lemma HeaderEnds(w: Writer, declarations: seq<Declaration>) returns (s: string, c: char)
    ensures HEADER + BodyText(w, declarations) == s + [c] && !Blank(c)
  {
    var text := HEADER + BodyText(w, declarations);
    s, c := text[..|text| - 1], text[|text| - 1];
    if declarations != [] {
      assert text[|text| - 1] == ';';
    } else {
      assert text == HEADER;
    }
  }

  /** Stripping the written text and ending it with one line break gives the file. */
  lemma StrippedIsFile(w: Writer, declarations: seq<Declaration>)
    ensures RStrip(Written(w, declarations)) + NEWLINE == FileText(w, declarations)
  {
    var s, c := HeaderEnds(w, declarations);
    StripsBlankLines(s, c);
  }

  lemma TranslatedHaveTypes(definitions: seq<Definition>, declarations: seq<Declaration>)
    requires Translates(definitions, declarations)
    ensures forall i :: 0 <= i < |definitions| ==> Translatable(definitions[i].schema)
  {
    forall i | 0 <= i < |definitions| ensures Translatable(definitions[i].schema) {
      TranslatesIff(definitions[i].schema);
    }
  }

  /** The loop of `main` over the definitions: every one translated, in order, or nothing written. */
  method Emit(w: Writer, definitions: seq<Definition>) returns (r: Result<string, Problem>)
    ensures r.Ok? <==> forall i :: 0 <= i < |definitions| ==> Translatable(definitions[i].schema)
    ensures r.Ok? ==>
      exists declarations :: Translates(definitions, declarations) && r.value == FileText(w, declarations)
  {
    var ts := HEADER + NEWLINE;
    ghost var declarations := [];
    assert HEADER + "" + NEWLINE == HEADER + NEWLINE;
    for i := 0 to |definitions|
      invariant |declarations| == i && ts == Written(w, declarations)
      invariant forall k :: 0 <= k < i ==>
        definitions[k].name == declarations[k].name && Translate(definitions[k].schema) == Ok(declarations[k].typ)
    {
      var text := Typescript(w, definitions[i].schema);
      TextIsPrintedType(w, definitions[i].schema);
      TranslatesIff(definitions[i].schema);
      if text.Err? {
        return Err(text.error);
      }
      ghost var d := Declaration(definitions[i].name, Translate(definitions[i].schema).value);
      WrittenGrows(w, declarations, d);
      ts := ts + EXPORT + definitions[i].name + EQUALS + text.value + SEMICOLON + NEWLINE + NEWLINE;
      declarations := declarations + [d];
    }
    StrippedIsFile(w, declarations);
    TranslatedHaveTypes(definitions, declarations);
    return Ok(RStrip(ts) + NEWLINE);
  }

  // ---------------------------------------------------------------- reading back

  function ParseDeclarations(s: string): (r: Option<seq<Declaration>>)
    decreases |s|
  {
    var start := Eat(EXPORT, s);
    if start.None? then None else
      var name := Word(start.value);
      var equals := Eat(EQUALS, start.value[|name|..]);
      if equals.None? then None else
        var typ := ParseType(equals.value);
        if typ.None? then None else
          var end := Eat(SEMICOLON, typ.value.1);
          if end.None? then None else ParseRest(Declaration(name, typ.value.0), end.value)
  }

  /** After a declaration's semicolon: the end of the file, or an empty line and more declarations. */
  function ParseRest(d: Declaration, s: string): (r: Option<seq<Declaration>>)
    decreases |s|
  {
    var line := Eat(NEWLINE, s);
    if line.None? then None
    else if line.value == "" then Some([d])
    else
      var blank := Eat(NEWLINE, line.value);
      if blank.None? then None else
        var more := ParseDeclarations(blank.value);
        if more.None? then None else Some([d] + more.value)
  }

  function ParseFile(s: string): Option<seq<Declaration>> {
    var header := Eat(HEADER, s);
    if header.None? then None else
      var line := Eat(NEWLINE, header.value);
      if line.None? then None else if line.value == "" then Some([]) else ParseDeclarations(line.value)
  }

  /** A declaration as it is read back, with its `null` literals as the null type. */
  function Normalized(d: Declaration): Declaration {
    Declaration(d.name, Normal(d.typ))
  }

  function NormalizedAll(declarations: seq<Declaration>): seq<Declaration> {
    seq(|declarations|, i requires 0 <= i < |declarations| => Normalized(declarations[i]))
  }

  /** Declarations whose names are words and whose types name only words of their own and hold only whole numbers. */
  predicate CleanDeclarations(declarations: seq<Declaration>) {
    forall i :: 0 <= i < |declarations| ==> IsWord(declarations[i].name) && Clean(declarations[i].typ)
  }

  /** The declarations from the first one on. */
  function Listed(w: Writer, declarations: seq<Declaration>): string
    requires declarations != []
  {
    var first := DeclarationText(declarations[0].name, Print(w, declarations[0].typ));
    if |declarations| == 1 then first else first + (NEWLINE + NEWLINE) + Listed(w, declarations[1..])
  }

  lemma {:induction false} ListedGrows(w: Writer, declarations: seq<Declaration>, d: Declaration)
    requires declarations != []
    ensures Listed(w, declarations + [d]) ==
      Listed(w, declarations) + (NEWLINE + NEWLINE) + DeclarationText(d.name, Print(w, d.typ))
  {
    var all := declarations + [d];
    var first := DeclarationText(declarations[0].name, Print(w, declarations[0].typ));
    var last := DeclarationText(d.name, Print(w, d.typ));
    assert all[0] == declarations[0];
    assert all[1..] == declarations[1..] + [d];
    if |declarations| > 1 {
      ListedGrows(w, declarations[1..], d);
      Chain3(first, NEWLINE + NEWLINE, Listed(w, declarations[1..]), (NEWLINE + NEWLINE) + last);
      Chain3(first, NEWLINE + NEWLINE, Listed(w, declarations[1..]) + (NEWLINE + NEWLINE), last);
      Regroup3(Listed(w, declarations[1..]), NEWLINE + NEWLINE, last);
    } else {
      assert Listed(w, [d]) == last;
    }
  }

  lemma {:induction false} BodyIsListed(w: Writer, declarations: seq<Declaration>)
    requires declarations != []
    ensures BodyText(w, declarations) == NEWLINE + Listed(w, declarations)
  {
    var before, last := declarations[..|declarations| - 1], declarations[|declarations| - 1];
    assert declarations == before + [last];
    if before == [] {
      assert BodyText(w, before) == "";
      assert declarations == [last];
    } else {
      BodyIsListed(w, before);
      ListedGrows(w, before, last);
      Chain3(NEWLINE, Listed(w, before), NEWLINE + NEWLINE, DeclarationText(last.name, Print(w, last.typ)));
      Chain2(Listed(w, before), NEWLINE + NEWLINE, DeclarationText(last.name, Print(w, last.typ)));
    }
  }

  lemma ParsesDeclaration(name: string, text: string, typ: Type, rest: string)
    requires IsWord(name) && ParseType(text + (SEMICOLON + rest)) == Some((typ, SEMICOLON + rest))
    ensures ParseDeclarations(DeclarationText(name, text) + rest) == ParseRest(Declaration(name, typ), rest)
  {
    Chain5(EXPORT, name, EQUALS, text, SEMICOLON, rest);
    var after := EQUALS + (text + (SEMICOLON + rest));
    assert after[0] == ' ';
    EatsPrefix(EXPORT, name + after);
    WordStops(name, after);
    EatsPrefix(EQUALS, text + (SEMICOLON + rest));
    EatsPrefix(SEMICOLON, rest);
  }

  lemma ParsesLast(d: Declaration)
    ensures ParseRest(d, NEWLINE) == Some([d])
  {
    assert NEWLINE + "" == NEWLINE;
    EatsPrefix(NEWLINE, "");
  }

  lemma ParsesNext(d: Declaration, more: string, ds: seq<Declaration>)
    requires ParseDeclarations(more) == Some(ds)
    ensures ParseRest(d, NEWLINE + NEWLINE + more) == Some([d] + ds)
  {
    Regroup3(NEWLINE, NEWLINE, more);
    EatsPrefix(NEWLINE, NEWLINE + more);
    EatsPrefix(NEWLINE, more);
  }

  lemma ParsesOnlyDeclaration(w: Writer, d: Declaration)
    requires IsWord(d.name)
    requires ParseType(Print(w, d.typ) + (SEMICOLON + NEWLINE)) == Some((Normal(d.typ), SEMICOLON + NEWLINE))
    ensures ParseDeclarations(Listed(w, [d]) + NEWLINE) == Some([Normalized(d)])
  {
    ParsesDeclaration(d.name, Print(w, d.typ), Normal(d.typ), NEWLINE);
    ParsesLast(Normalized(d));
  }

  lemma ParsesMoreDeclarations(w: Writer, declarations: seq<Declaration>, more: string)
    requires |declarations| > 1 && more == Listed(w, declarations[1..]) + NEWLINE
    requires ParseDeclarations(more) == Some(NormalizedAll(declarations[1..]))
    requires var d := declarations[0]; var after := SEMICOLON + (NEWLINE + NEWLINE + more);
             IsWord(d.name) && ParseType(Print(w, d.typ) + after) == Some((Normal(d.typ), after))
    ensures ParseDeclarations(Listed(w, declarations) + NEWLINE) == Some(NormalizedAll(declarations))
  {
    var d := declarations[0];
    ParsesDeclaration(d.name, Print(w, d.typ), Normal(d.typ), NEWLINE + NEWLINE + more);
    ParsesNext(Normalized(d), more, NormalizedAll(declarations[1..]));
    Chain3(DeclarationText(d.name, Print(w, d.typ)), NEWLINE + NEWLINE, Listed(w, declarations[1..]), NEWLINE);
    Regroup3(NEWLINE + NEWLINE, Listed(w, declarations[1..]), NEWLINE);
    assert NormalizedAll(declarations) == [Normalized(d)] + NormalizedAll(declarations[1..]);
  }

  lemma {:induction false} ParsesListed(w: Writer, declarations: seq<Declaration>)
    requires declarations != [] && CleanDeclarations(declarations)
    ensures ParseDeclarations(Listed(w, declarations) + NEWLINE) == Some(NormalizedAll(declarations))
  {
    var d := declarations[0];
    if |declarations| == 1 {
      assert declarations == [d] && NormalizedAll(declarations) == [Normalized(d)];
      ParsesPrinted(w, d.typ, SEMICOLON + NEWLINE);
      ParsesOnlyDeclaration(w, d);
    } else {
      var more := Listed(w, declarations[1..]) + NEWLINE;
      ParsesListed(w, declarations[1..]);
      ParsesPrinted(w, d.typ, SEMICOLON + (NEWLINE + NEWLINE + more));
      ParsesMoreDeclarations(w, declarations, more);
    }
  }

  lemma ListedBegins(w: Writer, declarations: seq<Declaration>)
    requires declarations != []
    ensures Listed(w, declarations) != ""
  {
  }

  /** The whole file is unambiguous: reading it gives every declaration, in order, with its type. */
  lemma FileParses(w: Writer, declarations: seq<Declaration>)
    requires CleanDeclarations(declarations)
    ensures ParseFile(FileText(w, declarations)) == Some(NormalizedAll(declarations))
  {
    if declarations == [] {
      assert HEADER + "" + NEWLINE == HEADER + NEWLINE && NormalizedAll(declarations) == [];
      EatsPrefix(HEADER, NEWLINE);
      assert NEWLINE + "" == NEWLINE;
      EatsPrefix(NEWLINE, "");
    } else {
      BodyIsListed(w, declarations);
      ListedBegins(w, declarations);
      var listed := Listed(w, declarations);
      Chain3(HEADER, NEWLINE, listed, NEWLINE);
      Regroup3(HEADER, NEWLINE, listed);
      EatsPrefix(HEADER, NEWLINE + (listed + NEWLINE));
      EatsPrefix(NEWLINE, listed + NEWLINE);
      ParsesListed(w, declarations);
    }
  }

  // ---------------------------------------------------------------- what the file declares

  predicate DistinctNames(definitions: seq<Definition>) {
    forall i, j :: 0 <= i < j < |definitions| ==> definitions[i].name != definitions[j].name
  }

  ghost function AsDefinitions(definitions: seq<Definition>): Definitions
    requires DistinctNames(definitions)
  {
    map i | 0 <= i < |definitions| :: definitions[i].name := definitions[i].schema
  }

  ghost function AsDeclarations(declarations: seq<Declaration>): Declarations
    requires Unrepeated(declarations)
  {
    map i | 0 <= i < |declarations| :: declarations[i].name := declarations[i].typ
  }

  predicate Unrepeated(declarations: seq<Declaration>) {
    forall i, j :: 0 <= i < j < |declarations| ==> declarations[i].name != declarations[j].name
  }

  lemma DeclaredAt(declarations: seq<Declaration>, i: nat)
    requires Unrepeated(declarations) && i < |declarations|
    ensures declarations[i].name in AsDeclarations(declarations)
    ensures AsDeclarations(declarations)[declarations[i].name] == declarations[i].typ
  {
  }

  lemma DefinedAt(definitions: seq<Definition>, i: nat)
    requires DistinctNames(definitions) && i < |definitions|
    ensures definitions[i].name in AsDefinitions(definitions)
    ensures AsDefinitions(definitions)[definitions[i].name] == definitions[i].schema
  {
  }

  lemma TranslatedAreDeclared(definitions: seq<Definition>, declarations: seq<Declaration>)
    requires DistinctNames(definitions) && Translates(definitions, declarations)
    ensures Declares(AsDeclarations(declarations), AsDefinitions(definitions))
  {
    var types, defs := AsDeclarations(declarations), AsDefinitions(definitions);
    forall name | name in defs ensures name in types && Translate(defs[name]) == Ok(types[name]) {
      var i :| 0 <= i < |definitions| && definitions[i].name == name;
      DefinedAt(definitions, i);
      DeclaredAt(declarations, i);
    }
    forall name | name in types ensures name in defs {
      var i :| 0 <= i < |declarations| && declarations[i].name == name;
      DefinedAt(definitions, i);
    }
  }

  lemma NormalizedDeclare(declarations: seq<Declaration>)
    requires Unrepeated(declarations)
    ensures Unrepeated(NormalizedAll(declarations))
    ensures AsDeclarations(NormalizedAll(declarations)) == NormalTypes(AsDeclarations(declarations))
  {
    var all := NormalizedAll(declarations);
    assert forall i :: 0 <= i < |all| ==> all[i] == Normalized(declarations[i]);
    forall name | name in AsDeclarations(all) || name in AsDeclarations(declarations)
      ensures name in AsDeclarations(all) && name in AsDeclarations(declarations)
      ensures AsDeclarations(all)[name] == Normal(AsDeclarations(declarations)[name])
    {
      var i :| 0 <= i < |all| && declarations[i].name == name && all[i].name == name;
      DeclaredAt(all, i);
      DeclaredAt(declarations, i);
    }
  }

  /** The aliases read back from the emitted file are exactly those the schema's definitions translate to. */
  lemma FileDeclaresDefinitions(w: Writer, definitions: seq<Definition>, declarations: seq<Declaration>)
    requires DistinctNames(definitions) && Translates(definitions, declarations) && CleanDeclarations(declarations)
    ensures ParseFile(FileText(w, declarations)) == Some(NormalizedAll(declarations))
    ensures Declares(AsDeclarations(declarations), AsDefinitions(definitions))
    ensures AsDeclarations(NormalizedAll(declarations)) == NormalTypes(AsDeclarations(declarations))
  {
    NormalizedDeclare(declarations);
    FileParses(w, declarations);
    TranslatedAreDeclared(definitions, declarations);
  }

  /**
    * From schema to file and back: a value valid under a definition inhabits the alias of that name,
    * as the emitted file declares it.
    */
  lemma EmittedFileIsSound(
    w: Writer, definitions: seq<Definition>, declarations: seq<Declaration>, name: string, v: Json)
    requires DistinctNames(definitions) && Translates(definitions, declarations) && CleanDeclarations(declarations)
    requires AllMapSafe(AsDefinitions(definitions))
    requires name in AsDefinitions(definitions)
    requires Valid(AsDefinitions(definitions), AsDefinitions(definitions)[name], v)
    ensures ParseFile(FileText(w, declarations)) == Some(NormalizedAll(declarations))
    ensures Inhabits(AsDeclarations(NormalizedAll(declarations)), Alias(name), v)
  {
    FileDeclaresDefinitions(w, definitions, declarations);
    var types, defs := AsDeclarations(declarations), AsDefinitions(definitions);
    TranslatesIff(defs[name]);
    TranslationIsSound(defs, types, defs[name], v);
    var n: nat :| Member(n, types, types[name], v);
    NormalHasSameMembers(n, types, types[name], v);
    assert Member(n + 1, NormalTypes(types), Alias(name), v);
  }
}
