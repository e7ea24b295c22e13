/** `sourceTokens` in web/src/SourceLines.tsx: a source file as lines of coloured tokens. */
module SourceLines {
  import opened Lexing
  import opened PythonTokens
  import opened SqlTokens
  import L = Lines

  const SQL_WORDS: set<string> := {
    "select", "from", "where", "group", "by", "having", "order", "asc", "desc", "limit", "offset", "join", "left",
    "right", "full", "inner", "outer", "cross", "on", "as", "with", "recursive", "union", "all", "distinct",
    "intersect", "except", "case", "when", "then", "else", "end", "null", "true", "false", "and", "or", "not", "in",
    "is", "like", "ilike", "between", "exists", "over", "partition", "rows", "range", "unbounded", "preceding",
    "following", "current", "row", "create", "table", "view", "insert", "into", "values", "update", "set", "delete",
    "cast", "filter", "qualify"}

  predicate EndsWith(path: string, extension: string) {
    |path| >= |extension| && LowerCase(path[|path| - |extension|..]) == extension
  }

  lemma {:induction false} PaintedSpells(text: string, m: Matcher, offset: nat)
    requires NonEmptyMatches(m) && offset <= |text|
    ensures Characters(Painted(text, m, offset)) == text[offset..]
    decreases |text| - offset
  {
    var i := NextMatch(text, m, offset);
    if i < |text| {
      PaintedSpells(text, m, m(text, i).value.end);
    }
  }

  lemma {:induction false} TidyLineIsLine(line: Line)
    requires forall j :: 0 <= j < |line| ==> TidyToken(line[j])
    ensures L.IsLine(LineText(line))
  {
    if line != [] {
      TidyLineIsLine(line[..|line| - 1]);
      assert TidyToken(line[|line| - 1]);
    }
  }

  lemma TidyLinesSplit(lines: seq<Line>)
    requires lines != [] && Tidy(lines)
    ensures L.Split(L.Join(LineTexts(lines))) == LineTexts(lines)
  {
    forall i | 0 <= i < |lines| ensures L.IsLine(LineText(lines[i])) {
      TidyLineIsLine(lines[i]);
    }
    L.JoinSplits(LineTexts(lines));
  }

  /**
    * `sourceTokens`: joining the lines gives the text back, whatever the path; in highlighted files no token is empty
    * or holds a newline, and every character has the colour that the pattern of the file's language gives it.
    */
  method SourceTokens(text: string, path: string) returns (lines: seq<Line>)
    ensures L.Join(LineTexts(lines)) == text && LineTexts(lines) == L.Split(text)
    ensures EndsWith(path, ".sql") || EndsWith(path, ".py") ==> lines != [] && Tidy(lines)
    ensures EndsWith(path, ".sql") ==>
              && NonEmptyMatches(SqlPattern(SQL_WORDS)) && Shown(lines) == Painted(text, SqlPattern(SQL_WORDS), 0)
              && RightGlyphs(text, 0, Shown(lines)) && |Shown(lines)| == |text|
    ensures EndsWith(path, ".py") && !EndsWith(path, ".sql") ==>
              NonEmptyMatches(PYTHON_PATTERN) && Shown(lines) == Painted(text, PYTHON_PATTERN, 0)
    ensures !EndsWith(path, ".sql") && !EndsWith(path, ".py") ==>
              forall i :: 0 <= i < |lines| ==> |lines[i]| == 1 && lines[i][0].kind == Plain
  {
    var sql := EndsWith(path, ".sql");
    if !sql && !EndsWith(path, ".py") {
      var parts := L.Split(text);
      lines := seq(|parts|, i requires 0 <= i < |parts| => [Token(parts[i], Plain)]);
      L.SplitJoins(text);
      forall i | 0 <= i < |parts| ensures LineText(lines[i]) == parts[i] {
        assert lines[i][..0] == [];
      }
      assert LineTexts(lines) == parts;
      return;
    }
    SqlMatchesAreNonEmpty(SQL_WORDS);
    PythonMatchesAreNonEmpty();
    var pattern := if sql then SqlPattern(SQL_WORDS) else PYTHON_PATTERN;
    lines := Lex(text, pattern);
    ShownSpells(lines);
    PaintedSpells(text, pattern, 0);
    TidyLinesSplit(lines);
    if sql {
      ColoursAreZones(text, SQL_WORDS, 0);
    }
  }
}
