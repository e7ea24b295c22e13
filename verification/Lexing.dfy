/** `sourceTokens` in web/src/SourceLines.tsx: the display-only lexer. */
module Lexing {
  import opened Results
  import L = Lines

  datatype Kind = Comment | String | Number | Keyword | Plain

  datatype Token = Token(text: string, kind: Kind)

  type Line = seq<Token>

  /** What a pattern matches at a position: where the match ends and which colour it gets. */
  datatype Match = Match(end: nat, kind: Kind)

  type Matcher = (string, nat) -> Option<Match>

  /** A pattern whose matches lie in the text and are never empty. */
  ghost predicate NonEmptyMatches(m: Matcher) {
    forall text, i: nat :: i <= |text| && m(text, i).Some? ==> i < m(text, i).value.end <= |text|
  }

  // ---------------------------------------------------------------- what is displayed

  /** A displayed character with its colour; line breaks have none. */
  type Glyph = (char, Option<Kind>)

  function Colour(text: string, kind: Kind): (glyphs: seq<Glyph>)
    ensures |glyphs| == |text|
  {
    seq(|text|, k requires 0 <= k < |text| => (text[k], if text[k] == '\n' then None else Some(kind)))
  }

  function ShownLine(line: Line): seq<Glyph> {
    if line == [] then [] else ShownLine(line[..|line| - 1]) + Colour(line[|line| - 1].text, line[|line| - 1].kind)
  }

  /** The characters of all lines in order, a line break between any two. */
  function Shown(lines: seq<Line>): seq<Glyph>
    requires lines != []
  {
    var last := ShownLine(lines[|lines| - 1]);
    if |lines| == 1 then last else Shown(lines[..|lines| - 1]) + [('\n', None)] + last
  }

  function Characters(glyphs: seq<Glyph>): string {
    seq(|glyphs|, k requires 0 <= k < |glyphs| => glyphs[k].0)
  }

  /** The text of a line, and of all lines joined by newlines. */
  function LineText(line: Line): string {
    if line == [] then "" else LineText(line[..|line| - 1]) + line[|line| - 1].text
  }

  function LineTexts(lines: seq<Line>): seq<string> {
    seq(|lines|, i requires 0 <= i < |lines| => LineText(lines[i]))
  }

  lemma {:induction false} ShownLineSpells(line: Line)
    ensures Characters(ShownLine(line)) == LineText(line)
  {
    if line != [] {
      ShownLineSpells(line[..|line| - 1]);
    }
  }

  /** The displayed characters are the lines joined by newlines. */
  lemma {:induction false} ShownSpells(lines: seq<Line>)
    requires lines != []
    ensures Characters(Shown(lines)) == L.Join(LineTexts(lines))
  {
    var init, last := lines[..|lines| - 1], lines[|lines| - 1];
    ShownLineSpells(last);
    if init != [] {
      ShownSpells(init);
      assert LineTexts(lines) == LineTexts(init) + [LineText(last)];
      L.JoinOneMore(LineTexts(init), LineText(last));
    } else {
      assert LineTexts(lines) == [LineText(last)];
    }
  }

  // ---------------------------------------------------------------- what a pattern finds

  /** The first position from `i` on where the pattern matches; the length of the text if there is none. */
  function NextMatch(text: string, m: Matcher, i: nat): (j: nat)
    requires i <= |text|
    ensures i <= j <= |text|
    ensures j < |text| ==> m(text, j).Some?
    ensures forall k: nat :: i <= k < j ==> m(text, k).None?
    decreases |text| - i
  {
    if i == |text| || m(text, i).Some? then i else NextMatch(text, m, i + 1)
  }

  /**
    * The characters from `offset` on, coloured by `matchAll`: leftmost matches, each starting after the
    * one before, and the gaps between them plain.
    */
  ghost function Painted(text: string, m: Matcher, offset: nat): seq<Glyph>
    requires NonEmptyMatches(m) && offset <= |text|
    decreases |text| - offset
  {
    var i := NextMatch(text, m, offset);
    if i == |text| then Colour(text[offset..], Plain)
    else
      var found := m(text, i).value;
      Colour(text[offset..i], Plain) + Colour(text[i..found.end], found.kind) + Painted(text, m, found.end)
  }

  // ---------------------------------------------------------------- the lexer

  predicate TidyToken(t: Token) {
    t.text != "" && '\n' !in t.text
  }

  predicate Tidy(lines: seq<Line>) {
    forall i, j :: 0 <= i < |lines| && 0 <= j < |lines[i]| ==> TidyToken(lines[i][j])
  }

  lemma ShownNewLine(lines: seq<Line>)
    requires lines != []
    ensures Shown(lines + [[]]) == Shown(lines) + [('\n', None)]
  {
    assert (lines + [[]])[..|lines|] == lines;
  }

  lemma ShownLongerLine(lines: seq<Line>, t: Token)
    requires lines != []
    ensures var last := |lines| - 1; Shown(lines[last := lines[last] + [t]]) == Shown(lines) + Colour(t.text, t.kind)
  {
    var last := |lines| - 1;
    var longer := lines[last := lines[last] + [t]];
    assert longer[..last] == lines[..last];
    assert (lines[last] + [t])[..|lines[last]|] == lines[last];
    if last > 0 {
      assert Shown(longer) == Shown(lines[..last]) + [('\n', None)] + (ShownLine(lines[last]) + Colour(t.text, t.kind));
    }
  }

  lemma ColourConcat(a: string, b: string, kind: Kind)
    ensures Colour(a + b, kind) == Colour(a, kind) + Colour(b, kind)
  {
  }

  /** The first `i` parts in one colour, with line breaks between them. */
  ghost function ColourParts(parts: seq<string>, i: nat, kind: Kind): seq<Glyph>
    requires i <= |parts|
  {
    if i == 0 then [] else
      ColourParts(parts, i - 1, kind) + (if i > 1 then [('\n', None)] else []) + Colour(parts[i - 1], kind)
  }

  lemma {:induction false} ColourPartsJoin(parts: seq<string>, i: nat, kind: Kind)
    requires i <= |parts|
    ensures ColourParts(parts, i, kind) == Colour(L.Join(parts[..i]), kind)
  {
    if i > 0 {
      ColourPartsJoin(parts, i - 1, kind);
      assert parts[..i] == parts[..i - 1] + [parts[i - 1]];
      if i > 1 {
        L.JoinOneMore(parts[..i - 1], parts[i - 1]);
        ColourConcat(L.Join(parts[..i - 1]) + "\n", parts[i - 1], kind);
        ColourConcat(L.Join(parts[..i - 1]), "\n", kind);
        assert Colour("\n", kind) == [('\n', None)];
      }
    }
  }

  lemma ColourSplit(value: string, kind: Kind)
    ensures var parts := L.Split(value);
            L.AreLines(parts) && ColourParts(parts, |parts|, kind) == Colour(value, kind)
  {
    var parts := L.Split(value);
    L.SplitJoins(value);
    ColourPartsJoin(parts, |parts|, kind);
    assert parts[..|parts|] == parts;
  }

  /** One line of an appended value: a new line unless it is the first, and a token unless it is empty. */
  method AppendPart(lines: seq<Line>, text: string, kind: Kind, first: bool) returns (longer: seq<Line>)
    requires lines != [] && Tidy(lines) && L.IsLine(text)
    ensures longer != [] && Tidy(longer)
    ensures Shown(longer) == Shown(lines) + (if first then [] else [('\n', None)]) + Colour(text, kind)
  {
    longer := lines;
    if !first {
      ShownNewLine(longer);
      longer := longer + [[]];
    }
    if text != "" {
      var last := |longer| - 1;
      ShownLongerLine(longer, Token(text, kind));
      longer := longer[last := longer[last] + [Token(text, kind)]];
    }
  }

  lemma ColourPartsStep(shown: seq<Glyph>, parts: seq<string>, i: nat, kind: Kind)
    requires i < |parts|
    ensures shown + ColourParts(parts, i, kind) + (if i == 0 then [] else [('\n', None)]) + Colour(parts[i], kind) ==
            shown + ColourParts(parts, i + 1, kind)
  {
  }

  /** The loop of `append` over the parts of a value. */
  method AppendParts(lines: seq<Line>, parts: seq<string>, kind: Kind) returns (longer: seq<Line>)
    requires lines != [] && Tidy(lines) && forall i :: 0 <= i < |parts| ==> L.IsLine(parts[i])
    ensures longer != [] && Tidy(longer)
    ensures Shown(longer) == Shown(lines) + ColourParts(parts, |parts|, kind)
  {
    longer := lines;
    for i := 0 to |parts|
      invariant longer != [] && Tidy(longer)
      invariant Shown(longer) == Shown(lines) + ColourParts(parts, i, kind)
    {
      ColourPartsStep(Shown(lines), parts, i, kind);
      longer := AppendPart(longer, parts[i], kind, i == 0);
    }
  }

  /** `append`: the value's characters in one colour, new lines at its newlines, no empty tokens. */
  method Append(lines: seq<Line>, value: string, kind: Kind) returns (longer: seq<Line>)
    requires lines != [] && Tidy(lines)
    ensures longer != [] && Tidy(longer)
    ensures Shown(longer) == Shown(lines) + Colour(value, kind)
  {
    ColourSplit(value, kind);
    longer := AppendParts(lines, L.Split(value), kind);
  }

  lemma Regroup(shown: seq<Glyph>, gap: seq<Glyph>, match_: seq<Glyph>, rest: seq<Glyph>)
    ensures shown + gap + match_ + rest == shown + (gap + match_ + rest)
  {
  }

  /** The match loop: every character is shown once, in the colour of the match or gap it lies in. */
  method Lex(text: string, m: Matcher) returns (lines: seq<Line>)
    requires NonEmptyMatches(m)
    ensures lines != [] && Tidy(lines)
    ensures Shown(lines) == Painted(text, m, 0)
  {
    lines := [[]];
    var offset: nat := 0;
    var i := NextMatch(text, m, 0);
    while i < |text|
      invariant offset <= i <= |text| && i == NextMatch(text, m, offset)
      invariant lines != [] && Tidy(lines)
      invariant Shown(lines) + Painted(text, m, offset) == Painted(text, m, 0)
      decreases |text| - i
    {
      var found := m(text, i).value;
      Regroup(
        Shown(lines), Colour(text[offset..i], Plain), Colour(text[i..found.end], found.kind),
        Painted(text, m, found.end));
      lines := Append(lines, text[offset..i], Plain);
      lines := Append(lines, text[i..found.end], found.kind);
      offset := found.end;
      i := NextMatch(text, m, offset);
    }
    lines := Append(lines, text[offset..], Plain);
  }
}
