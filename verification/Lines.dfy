/** Splitting text at a separator and joining again, as `split` and `join` do in JavaScript and Python. */
module Lines {

  /** `separator.join(parts)`. */
  function JoinAt(parts: seq<string>, separator: char): string {
    if parts == [] then ""
    else if |parts| == 1 then parts[0]
    else JoinAt(parts[..|parts| - 1], separator) + [separator] + parts[|parts| - 1]
  }

  /** `text.split(separator)`: always at least one part. */
  function SplitAt(text: string, separator: char): (parts: seq<string>)
    ensures parts != []
  {
    if text == "" then [""] else
      var before, c := SplitAt(text[..|text| - 1], separator), text[|text| - 1];
      if c == separator then before + [""] else before[..|before| - 1] + [before[|before| - 1] + [c]]
  }

  /** No part holds the separator. */
  predicate AreParts(parts: seq<string>, separator: char) {
    forall i :: 0 <= i < |parts| ==> separator !in parts[i]
  }

  lemma JoinAtOneMore(parts: seq<string>, part: string, separator: char)
    requires parts != []
    ensures JoinAt(parts + [part], separator) == JoinAt(parts, separator) + [separator] + part
  {
    assert (parts + [part])[..|parts|] == parts;
  }

  lemma JoinAtLongerPart(parts: seq<string>, part: string, c: char, separator: char)
    ensures JoinAt(parts + [part + [c]], separator) == JoinAt(parts + [part], separator) + [c]
  {
    assert (parts + [part + [c]])[..|parts|] == parts && (parts + [part])[..|parts|] == parts;
    if parts != [] {
      var joined := JoinAt(parts, separator);
      assert joined + [separator] + (part + [c]) == joined + [separator] + part + [c];
    }
  }

  /** Splitting loses nothing, and cuts at every separator. */
  lemma {:induction false} SplitAtJoins(text: string, separator: char)
    ensures JoinAt(SplitAt(text, separator), separator) == text && AreParts(SplitAt(text, separator), separator)
  {
    if text != "" {
      var rest, c := text[..|text| - 1], text[|text| - 1];
      SplitAtJoins(rest, separator);
      assert text == rest + [c];
      var before := SplitAt(rest, separator);
      if c == separator {
        JoinAtOneMore(before, "", separator);
        assert JoinAt(before, separator) + [separator] + "" == rest + [c];
      } else {
        var init, last := before[..|before| - 1], before[|before| - 1];
        assert before == init + [last];
        JoinAtLongerPart(init, last, c, separator);
      }
    }
  }

  /** Parts without separators are recovered from their join. */
  lemma {:induction false} JoinAtSplits(parts: seq<string>, separator: char)
    requires parts != [] && AreParts(parts, separator)
    ensures SplitAt(JoinAt(parts, separator), separator) == parts
    decreases |parts|, |parts[|parts| - 1]|
  {
    var init, last := parts[..|parts| - 1], parts[|parts| - 1];
    assert parts == init + [last];
    if last == "" {
      if init != [] {
        assert AreParts(init, separator);
        JoinAtSplits(init, separator);
        JoinAtOneMore(init, "", separator);
        var text := JoinAt(parts, separator);
        assert text == JoinAt(init, separator) + [separator];
        assert text[..|text| - 1] == JoinAt(init, separator) && text[|text| - 1] == separator;
      }
    } else {
      var shorter, c := last[..|last| - 1], last[|last| - 1];
      assert last == shorter + [c] && c in last;
      var fewer := init + [shorter];
      assert AreParts(fewer, separator);
      JoinAtSplits(fewer, separator);
      JoinAtLongerPart(init, shorter, c, separator);
      var text := JoinAt(parts, separator);
      assert text[..|text| - 1] == JoinAt(fewer, separator) && text[|text| - 1] == c;
      assert fewer[..|fewer| - 1] == init;
    }
  }

  // ---------------------------------------------------------------- lines

  /** `lines.join("\n")`. */
  function Join(lines: seq<string>): string {
    JoinAt(lines, '\n')
  }

  /** `text.split("\n")`. */
  function Split(text: string): (lines: seq<string>)
    ensures lines != []
  {
    SplitAt(text, '\n')
  }

  predicate IsLine(line: string) {
    '\n' !in line
  }

  predicate AreLines(lines: seq<string>) {
    AreParts(lines, '\n')
  }

  lemma JoinOneMore(lines: seq<string>, line: string)
    requires lines != []
    ensures Join(lines + [line]) == Join(lines) + "\n" + line
  {
    JoinAtOneMore(lines, line, '\n');
  }

  lemma SplitJoins(text: string)
    ensures Join(Split(text)) == text && AreLines(Split(text))
  {
    SplitAtJoins(text, '\n');
  }

  lemma JoinSplits(lines: seq<string>)
    requires lines != [] && AreLines(lines)
    ensures Split(Join(lines)) == lines
  {
    JoinAtSplits(lines, '\n');
  }
}
