/** The Python pattern of web/src/SourceLines.tsx, and where Python's own scanner ends a string. */
module PythonTokens {
  import opened Chars = Characters
  import opened Results
  import opened Lexing
  import opened SqlTokens

  const PYTHON_WORDS: set<string> := {
    "False", "None", "True", "and", "as", "assert", "async", "await", "break", "class", "continue", "def", "del",
    "elif", "else", "except", "finally", "for", "from", "global", "if", "import", "in", "is", "lambda", "nonlocal",
    "not", "or", "pass", "raise", "return", "try", "while", "with", "yield", "match", "case"}

  // ---------------------------------------------------------------- strings

  predicate Prefix(c: char) {
    c in {'r', 'R', 'u', 'U', 'b', 'B', 'f', 'F'}
  }

  /** Three quotes stand at `i`. */
  predicate Triple(text: string, i: nat, q: char) {
    i + 2 < |text| && text[i] == q && text[i + 1] == q && text[i + 2] == q
  }

  /** Where the pattern ends a triple-quoted string: after the next three quotes, or with the text. */
  function TripleEnd(text: string, i: nat, q: char): (end: nat)
    requires i <= |text|
    ensures i <= end <= |text|
    decreases |text| - i
  {
    if i == |text| then i else if Triple(text, i, q) then i + 3 else TripleEnd(text, i + 1, q)
  }

  /** Where the pattern ends a string of one line; none if a newline or a last backslash comes first. */
  function QuotedEnd(text: string, i: nat, q: char): (end: Option<nat>)
    requires i <= |text|
    ensures end.Some? ==> i <= end.value <= |text|
    decreases |text| - i
  {
    if i == |text| then Some(i)
    else if text[i] == q then Some(i + 1)
    else if text[i] == '\n' then None
    else if text[i] != '\\' then QuotedEnd(text, i + 1, q)
    else if i + 1 < |text| then QuotedEnd(text, i + 2, q)
    else None
  }

  /** A string whose quotes start at `i`. */
  function BodyEnd(text: string, i: nat): (end: Option<nat>)
    ensures end.Some? ==> i < end.value <= |text|
  {
    if i >= |text| || !Quote(text[i]) then None
    else if Triple(text, i, text[i]) then Some(TripleEnd(text, i + 3, text[i]))
    else QuotedEnd(text, i + 1, text[i])
  }

  /** The quotes of a string that starts at `i`, behind at most two letters. */
  function QuotesAt(text: string, i: nat): nat {
    if i + 1 < |text| && Prefix(text[i]) && Prefix(text[i + 1]) && BodyEnd(text, i + 2).Some? then i + 2
    else if i < |text| && Prefix(text[i]) && BodyEnd(text, i + 1).Some? then i + 1
    else i
  }

  // ---------------------------------------------------------------- numbers

  predicate At(text: string, i: nat, c: char) {
    i < |text| && text[i] == c
  }

  predicate Spaced(c: char) {
    Digit(c) || c == '_'
  }

  /** Where the characters of a class end. */
  function RunEnd(text: string, i: nat, class_: char -> bool): (end: nat)
    requires i <= |text|
    ensures i <= end <= |text|
    decreases |text| - i
  {
    if i < |text| && class_(text[i]) then RunEnd(text, i + 1, class_) else i
  }

  /** `\b`: of the characters on both sides one belongs to a word. */
  predicate Boundary(text: string, i: nat)
    requires i <= |text|
  {
    (i > 0 && WordChar(text[i - 1])) != (i < |text| && WordChar(text[i]))
  }

  /** Digits of another base behind `0` and the letter of the base. */
  function BasedEnd(text: string, i: nat, letter: char, capital: char, class_: char -> bool): (end: Option<nat>)
    ensures end.Some? ==> i < end.value <= |text|
  {
    if !At(text, i, '0') || !(At(text, i + 1, letter) || At(text, i + 1, capital)) then None
    else
      var end := RunEnd(text, i + 2, class_);
      if end > i + 2 && Boundary(text, end) then Some(end) else None
  }

  /** The end of an optional exponent. */
  function SpacedExponentEnd(text: string, i: nat): (end: nat)
    requires i <= |text|
    ensures i <= end <= |text|
  {
    if !At(text, i, 'e') && !At(text, i, 'E') then i
    else
      var digits := if At(text, i + 1, '+') || At(text, i + 1, '-') then i + 2 else i + 1;
      if digits < |text| && Spaced(text[digits]) then RunEnd(text, digits, Spaced) else i
  }

  /** The longest choice of exponent and `j` behind position `i` that ends at a word boundary. */
  function TailEnd(text: string, i: nat): (end: Option<nat>)
    requires i <= |text|
    ensures end.Some? ==> i <= end.value <= |text|
  {
    var exponent := SpacedExponentEnd(text, i);
    if exponent > i && At(text, exponent, 'j') && Boundary(text, exponent + 1) then Some(exponent + 1)
    else if exponent > i && Boundary(text, exponent) then Some(exponent)
    else if At(text, i, 'j') && Boundary(text, i + 1) then Some(i + 1)
    else if Boundary(text, i) then Some(i)
    else None
  }

  /** A decimal number; a fraction may shrink to its point, which a word can follow. */
  function DecimalEnd(text: string, i: nat): (end: Option<nat>)
    requires i < |text| && Digit(text[i])
    ensures end.Some? ==> i < end.value <= |text|
  {
    var whole := RunEnd(text, i, Spaced);
    assert whole > i;
    if !At(text, whole, '.') then TailEnd(text, whole)
    else
      var fraction := RunEnd(text, whole + 1, Spaced);
      var end := TailEnd(text, fraction);
      if end.Some? then end
      else if Boundary(text, whole + 1) then Some(whole + 1)
      else TailEnd(text, whole)
  }

  function PythonNumberEnd(text: string, i: nat): (end: Option<nat>)
    requires i < |text|
    ensures end.Some? ==> i < end.value <= |text|
  {
    if !Digit(text[i]) || (i > 0 && WordChar(text[i - 1])) then None
    else
      var hexadecimal := BasedEnd(text, i, 'x', 'X', c => Spaced(c) || 'a' <= c <= 'f' || 'A' <= c <= 'F');
      var binary := BasedEnd(text, i, 'b', 'B', c => c in {'0', '1', '_'});
      var octal := BasedEnd(text, i, 'o', 'O', c => '0' <= c <= '7' || c == '_');
      if hexadecimal.Some? then hexadecimal
      else if binary.Some? then binary
      else if octal.Some? then octal
      else DecimalEnd(text, i)
  }

  // ---------------------------------------------------------------- the pattern

  /** The alternatives of the pattern, tried in order. */
  function PythonMatch(text: string, i: nat): Option<Match> {
    if i >= |text| then None
    else if text[i] == '#' then Some(Match(LineEnd(text, i + 1), Comment))
    else
      var string_ := BodyEnd(text, QuotesAt(text, i));
      if string_.Some? then Some(Match(string_.value, String))
      else
        var number := PythonNumberEnd(text, i);
        if number.Some? then Some(Match(number.value, Number))
        else if Letter(text[i]) then
          var end := WordEnd(text, i);
          Some(Match(end, if text[i..end] in PYTHON_WORDS then Keyword else Plain))
        else None
  }

  const PYTHON_PATTERN: Matcher := (text: string, i: nat) => PythonMatch(text, i)

  lemma PythonMatchesAreNonEmpty()
    ensures NonEmptyMatches(PYTHON_PATTERN)
  {
    forall text, i: nat | i <= |text| && PythonMatch(text, i).Some?
      ensures i < PythonMatch(text, i).value.end <= |text|
    {
    }
  }

  lemma {:induction false} LineEndIsFirst(text: string, i: nat)
    requires i <= |text|
    ensures forall k :: i <= k < LineEnd(text, i) ==> text[k] != '\n'
    ensures LineEnd(text, i) < |text| ==> text[LineEnd(text, i)] == '\n'
    decreases |text| - i
  {
    if i < |text| && text[i] != '\n' {
      LineEndIsFirst(text, i + 1);
    }
  }

  /** A comment is a `#` with the rest of its line. */
  lemma CommentIsRestOfLine(text: string, i: nat)
    requires i < |text|
    ensures PythonMatch(text, i).Some? && PythonMatch(text, i).value.kind.Comment? <==> text[i] == '#'
    ensures text[i] == '#' ==> var end := PythonMatch(text, i).value.end;
      && i < end <= |text| && (forall k :: i <= k < end ==> text[k] != '\n') && (end < |text| ==> text[end] == '\n')
  {
    LineEndIsFirst(text, i + 1);
  }

  /** A whole word with which no string starts is a keyword exactly if it is one of Python's, in their case. */
  lemma WordIsMatchedWhole(text: string, a: nat, b: nat)
    requires IsWord(text, a, b) && BodyEnd(text, QuotesAt(text, a)).None?
    ensures PythonMatch(text, a) == Some(Match(b, if text[a..b] in PYTHON_WORDS then Keyword else Plain))
  {
    WordEndsThere(text, a, b);
  }

  lemma {:induction false} RunEndsThere(text: string, a: nat, b: nat, class_: char -> bool)
    requires a <= b <= |text| && (forall k :: a <= k < b ==> class_(text[k])) && (b < |text| ==> !class_(text[b]))
    ensures RunEnd(text, a, class_) == b
    decreases b - a
  {
    if a < b {
      RunEndsThere(text, a + 1, b, class_);
    }
  }

  /** Digits, which underscores may separate, from one word boundary to the next. */
  predicate IsInteger(text: string, a: nat, b: nat) {
    && a < b <= |text| && Digit(text[a]) && (forall k :: a <= k < b ==> Spaced(text[k]))
    && (a == 0 || !WordChar(text[a - 1])) && Stops(text, b)
  }

  /** A number match starts with a digit at a word boundary and ends at one. */
  lemma NumberStandsAlone(text: string, i: nat)
    requires i < |text| && PythonMatch(text, i).Some? && PythonMatch(text, i).value.kind.Number?
    ensures Digit(text[i]) && (i == 0 || !WordChar(text[i - 1])) && Boundary(text, PythonMatch(text, i).value.end)
  {
  }

  /** No integer is missed. */
  lemma IntegerIsMatched(text: string, a: nat, b: nat)
    requires IsInteger(text, a, b) && !At(text, b, '.')
    ensures PythonMatch(text, a) == Some(Match(b, Number))
  {
    RunEndsThere(text, a, b, Spaced);
    assert a + 1 < b ==> Spaced(text[a + 1]);
  }

  // ---------------------------------------------------------------- Python's own scanner

  /**
    * Where Python ends a string, read one character at a time: a backslash protects the character after it, raw
    * strings included. A string cut short by the text extends to its end; there is none if a string of one line is
    * cut by a newline or after a backslash.
    */
  function ScanEnd(text: string, i: nat, q: char, triple: bool, escaped: bool): (end: Option<nat>)
    requires i <= |text|
    decreases |text| - i
  {
    if i == |text| then if escaped && !triple then None else Some(i)
    else if escaped then ScanEnd(text, i + 1, q, triple, false)
    else if text[i] == '\\' then ScanEnd(text, i + 1, q, triple, true)
    else if triple && Triple(text, i, q) then Some(i + 3)
    else if !triple && text[i] == q then Some(i + 1)
    else if !triple && text[i] == '\n' then None
    else ScanEnd(text, i + 1, q, triple, false)
  }

  /** Reading from `start`, the character at `j` is protected by a backslash. */
  predicate EscapedAt(text: string, start: nat, j: nat)
    requires j <= |text|
    decreases j
  {
    j > start && text[j - 1] == '\\' && !EscapedAt(text, start, j - 1)
  }

  lemma {:induction false} QuotedEndIsScan(text: string, i: nat, q: char)
    requires i <= |text| && Quote(q)
    ensures QuotedEnd(text, i, q) == ScanEnd(text, i, q, false, false)
    decreases |text| - i
  {
    if i < |text| && text[i] != q && text[i] != '\n' {
      if text[i] != '\\' {
        QuotedEndIsScan(text, i + 1, q);
      } else if i + 1 < |text| {
        QuotedEndIsScan(text, i + 2, q);
      }
    }
  }

  lemma {:induction false} ScanGoesOn(text: string, i: nat, q: char, escaped: bool)
    requires i <= |text|
    ensures var end := ScanEnd(text, i, q, true, escaped);
      end.Some? && (end.value == |text| || i + 3 <= end.value <= |text|)
    decreases |text| - i
  {
    if i < |text| && (escaped || text[i] == '\\' || !Triple(text, i, q)) {
      ScanGoesOn(text, i + 1, q, !escaped && text[i] == '\\');
    }
  }

  /** The pattern closes the string where it should: at quotes that are not protected, or with the text. */
  predicate ClosesRight(text: string, start: nat, i: nat, q: char)
    requires i <= |text|
  {
    var end := TripleEnd(text, i, q);
    end == |text| || (end >= 3 && !EscapedAt(text, start, end - 3))
  }

  lemma {:induction false} TripleEndIsScan(text: string, start: nat, i: nat, q: char)
    requires start <= i <= |text| && Quote(q)
    ensures Some(TripleEnd(text, i, q)) == ScanEnd(text, i, q, true, EscapedAt(text, start, i)) <==>
            ClosesRight(text, start, i, q)
    decreases |text| - i
  {
    if i < |text| {
      if Triple(text, i, q) {
        ScanGoesOn(text, i + 1, q, false);
      } else {
        TripleEndIsScan(text, start, i + 1, q);
        assert EscapedAt(text, start, i + 1) <==> text[i] == '\\' && !EscapedAt(text, start, i);
      }
    }
  }

  /** Where Python ends a string whose quotes start at `i`. */
  function ScannedEnd(text: string, i: nat): Option<nat>
    requires i < |text| && Quote(text[i])
  {
    if Triple(text, i, text[i]) then ScanEnd(text, i + 3, text[i], true, false)
    else ScanEnd(text, i + 1, text[i], false, false)
  }

  /**
    * The pattern ends a string where Python does if and only if it is a string of one line, or the first three
    * quotes after its opening are not protected by a backslash, or the text ends there anyway.
    */
  lemma StringEndIsExact(text: string, i: nat)
    requires i < |text| && Quote(text[i])
    ensures BodyEnd(text, i) == ScannedEnd(text, i) <==>
            (Triple(text, i, text[i]) ==> ClosesRight(text, i + 3, i + 3, text[i]))
  {
    if Triple(text, i, text[i]) {
      TripleEndIsScan(text, i + 3, i + 3, text[i]);
    } else {
      QuotedEndIsScan(text, i + 1, text[i]);
    }
  }

  /** A string match is at most two letters and the body of a string; and no string is missed. */
  lemma StringIsPrefixAndBody(text: string, i: nat)
    requires i < |text| && text[i] != '#'
    ensures var j := QuotesAt(text, i);
      && i <= j <= i + 2 && (forall k: nat :: i <= k < j ==> k < |text| && Prefix(text[k]))
      && (PythonMatch(text, i).Some? && PythonMatch(text, i).value.kind.String? <==> BodyEnd(text, j).Some?)
      && (BodyEnd(text, j).Some? ==> PythonMatch(text, i).value.end == BodyEnd(text, j).value)
    ensures forall k: nat ::
      (i <= k <= i + 2 && k <= |text| && (forall l: nat :: i <= l < k ==> Prefix(text[l])) && BodyEnd(text, k).Some?)
      ==> k == QuotesAt(text, i)
  {
  }

  const PROTECTED: string := "\"\"\"\\\"\"\" \"\"\""

  /** Three quotes behind a backslash: the pattern ends the string there, Python does not. */
  lemma ProtectedQuotesEndEarly()
    ensures PROTECTED[0] == '"' && BodyEnd(PROTECTED, 0) == Some(7) && ScannedEnd(PROTECTED, 0) == Some(|PROTECTED|)
  {
    var t := PROTECTED;
    assert |t| == 11 && Triple(t, 0, '"') && !Triple(t, 3, '"') && Triple(t, 4, '"') && Triple(t, 8, '"');
    assert TripleEnd(t, 4, '"') == 7;
    assert ScanEnd(t, 8, '"', true, false) == Some(11);
    assert ScanEnd(t, 7, '"', true, false) == Some(11);
    assert ScanEnd(t, 6, '"', true, false) == Some(11);
    assert ScanEnd(t, 5, '"', true, false) == Some(11);
    assert ScanEnd(t, 4, '"', true, true) == Some(11);
  }
}
