/** The SQL pattern of web/src/SourceLines.tsx, and SQL's comments and strings defined independently of it. */
module SqlTokens {
  import opened Chars = Characters
  import opened Results
  import opened Lexing

  predicate Quote(c: char) {
    c == '\'' || c == '"'
  }

  /** The two characters `a` and `b` stand at `i`. */
  predicate Pair(text: string, i: nat, a: char, b: char) {
    i + 1 < |text| && text[i] == a && text[i + 1] == b
  }

  // ---------------------------------------------------------------- the pattern

  /** Where a line comment ends: before the next newline. */
  function LineEnd(text: string, i: nat): (end: nat)
    requires i <= |text|
    ensures i <= end <= |text|
    decreases |text| - i
  {
    if i == |text| || text[i] == '\n' then i else LineEnd(text, i + 1)
  }

  /** Where a block comment ends: after the next closing mark, or with the text. */
  function BlockEnd(text: string, i: nat): (end: nat)
    requires i <= |text|
    ensures i <= end <= |text|
    decreases |text| - i
  {
    if i == |text| then i else if Pair(text, i, '*', '/') then i + 2 else BlockEnd(text, i + 1)
  }

  /** Where a quoted string ends: after a quote that is not doubled, or with the text. */
  function QuoteEnd(text: string, i: nat, q: char): (end: nat)
    requires i <= |text|
    ensures i <= end <= |text|
    decreases |text| - i
  {
    if i == |text| then i
    else if Pair(text, i, q, q) then QuoteEnd(text, i + 2, q)
    else if text[i] == q then i + 1
    else QuoteEnd(text, i + 1, q)
  }

  function DigitsEnd(text: string, i: nat): (end: nat)
    requires i <= |text|
    ensures i <= end <= |text|
    decreases |text| - i
  {
    if i < |text| && Digit(text[i]) then DigitsEnd(text, i + 1) else i
  }

  function WordEnd(text: string, i: nat): (end: nat)
    requires i <= |text|
    ensures i <= end <= |text|
    decreases |text| - i
  {
    if i < |text| && WordChar(text[i]) then WordEnd(text, i + 1) else i
  }

  predicate DigitAt(text: string, i: nat) {
    i < |text| && Digit(text[i])
  }

  /** The end of an optional fraction. */
  function FractionEnd(text: string, i: nat): (end: nat)
    requires i <= |text|
    ensures i <= end <= |text|
  {
    if i < |text| && text[i] == '.' && DigitAt(text, i + 1) then DigitsEnd(text, i + 1) else i
  }

  /** The end of an optional exponent. */
  function ExponentEnd(text: string, i: nat): (end: nat)
    requires i <= |text|
    ensures i <= end <= |text|
  {
    if i == |text| || (text[i] != 'e' && text[i] != 'E') then i
    else
      var digits := if i + 1 < |text| && (text[i + 1] == '+' || text[i + 1] == '-') then i + 2 else i + 1;
      if DigitAt(text, digits) then DigitsEnd(text, digits) else i
  }

  /** No word character follows. */
  predicate Stops(text: string, i: nat) {
    i >= |text| || !WordChar(text[i])
  }

  /** A number at a word boundary: the longest of the pattern's choices that ends at a word boundary. */
  function NumberEnd(text: string, i: nat): Option<nat>
    requires i < |text|
  {
    if !Digit(text[i]) || (i > 0 && WordChar(text[i - 1])) then None
    else
      var whole := DigitsEnd(text, i);
      var fraction := FractionEnd(text, whole);
      var exponent := ExponentEnd(text, fraction);
      if Stops(text, exponent) then Some(exponent)
      else if Stops(text, fraction) then Some(fraction)
      else if Stops(text, whole) then Some(whole)
      else None
  }

  predicate DigitsBetween(text: string, a: nat, b: nat) {
    a <= b <= |text| && forall k :: a <= k < b ==> Digit(text[k])
  }

  /** The text from `f` to `e` is empty or an exponent. */
  predicate IsExponent(text: string, f: nat, e: nat) {
    || e == f
    || (f < |text| && (text[f] == 'e' || text[f] == 'E') &&
        var digits := if f + 1 < |text| && (text[f + 1] == '+' || text[f + 1] == '-') then f + 2 else f + 1;
        digits < e && DigitsBetween(text, digits, e))
  }

  /** A number stands between `i` and `e`: digits up to `w`, a fraction up to `f`, an exponent up to `e`. */
  predicate IsNumber(text: string, i: nat, w: nat, f: nat, e: nat) {
    && i < w && DigitsBetween(text, i, w)
    && (f == w || (w < |text| && text[w] == '.' && w + 1 < f && DigitsBetween(text, w + 1, f)))
    && IsExponent(text, f, e)
  }

  lemma {:induction false} DigitsEndIsMaximal(text: string, i: nat)
    requires i <= |text|
    ensures DigitsBetween(text, i, DigitsEnd(text, i))
    ensures DigitsEnd(text, i) < |text| ==> !Digit(text[DigitsEnd(text, i)])
    decreases |text| - i
  {
    if i < |text| && Digit(text[i]) {
      DigitsEndIsMaximal(text, i + 1);
    }
  }

  lemma DigitsEndBounds(text: string, i: nat, b: nat)
    requires i <= b && DigitsBetween(text, i, b)
    ensures b <= DigitsEnd(text, i) && (Stops(text, b) ==> b == DigitsEnd(text, i))
  {
    DigitsEndIsMaximal(text, i);
    if b < DigitsEnd(text, i) {
      assert Digit(text[b]);
    }
  }

  lemma ExponentEndIsNumber(text: string, i: nat, w: nat, f: nat)
    requires IsNumber(text, i, w, f, f)
    ensures f <= |text| && IsNumber(text, i, w, f, ExponentEnd(text, f))
  {
    if ExponentEnd(text, f) != f {
      var digits := if f + 1 < |text| && (text[f + 1] == '+' || text[f + 1] == '-') then f + 2 else f + 1;
      DigitsEndIsMaximal(text, digits);
    }
  }

  /** What is taken for a number is one, and ends at a word boundary. */
  lemma NumberIsNumber(text: string, i: nat) returns (w: nat, f: nat, e: nat)
    requires i < |text| && NumberEnd(text, i).Some?
    ensures e == NumberEnd(text, i).value && IsNumber(text, i, w, f, e) && Stops(text, e)
  {
    w := DigitsEnd(text, i);
    DigitsEndIsMaximal(text, i);
    f := FractionEnd(text, w);
    if f > w {
      DigitsEndIsMaximal(text, w + 1);
    }
    e := ExponentEnd(text, f);
    ExponentEndIsNumber(text, i, w, f);
    if !Stops(text, e) {
      e := f;
      if !Stops(text, f) {
        f, e := w, w;
      }
    }
  }

  /** Of all numbers that start at a word boundary and end at one, the longest is taken. */
  lemma NumberIsLongest(text: string, i: nat, w: nat, f: nat, e: nat)
    requires i < |text| && (i == 0 || !WordChar(text[i - 1]))
    requires IsNumber(text, i, w, f, e) && Stops(text, e)
    ensures NumberEnd(text, i).Some? && e <= NumberEnd(text, i).value
  {
    assert Digit(text[i]);
    DigitsEndBounds(text, i, w);
    DigitsEndIsMaximal(text, i);
    if f > w {
      DigitsEndBounds(text, w + 1, f);
      DigitsEndIsMaximal(text, w + 1);
    }
    if e > f {
      var digits := if f + 1 < |text| && (text[f + 1] == '+' || text[f + 1] == '-') then f + 2 else f + 1;
      DigitsEndBounds(text, digits, e);
    }
  }

  function LowerCase(s: string): string {
    seq(|s|, i requires 0 <= i < |s| => if 'A' <= s[i] <= 'Z' then (s[i] as int + 32) as char else s[i])
  }

  /** The alternatives of the pattern, tried in order. */
  function SqlMatch(text: string, i: nat, words: set<string>): Option<Match> {
    if i >= |text| then None
    else if Pair(text, i, '-', '-') then Some(Match(LineEnd(text, i + 2), Comment))
    else if Pair(text, i, '/', '*') then Some(Match(BlockEnd(text, i + 2), Comment))
    else if Quote(text[i]) then Some(Match(QuoteEnd(text, i + 1, text[i]), String))
    else
      var number := NumberEnd(text, i);
      if number.Some? then Some(Match(number.value, Number))
      else if Letter(text[i]) then
        var end := WordEnd(text, i);
        Some(Match(end, if LowerCase(text[i..end]) in words then Keyword else Plain))
      else None
  }

  function SqlPattern(words: set<string>): Matcher {
    (text: string, i: nat) => SqlMatch(text, i, words)
  }

  lemma SqlMatchesAreNonEmpty(words: set<string>)
    ensures NonEmptyMatches(SqlPattern(words))
  {
    forall text, i: nat | i <= |text| && SqlMatch(text, i, words).Some?
      ensures i < SqlMatch(text, i, words).value.end <= |text|
    {
    }
  }

  // ---------------------------------------------------------------- comments and strings, one character at a time

  /**
    * What a position lies in, just before its character: code, a line comment, the second character of
    * an opening mark, a block comment, the second character of a closing mark, a string, or the second
    * of two doubled quotes.
    */
  datatype Zone = Code | InLine | Opening | InBlock | Closing | InQuotes(q: char) | Doubled(q: char)

  function NextZone(text: string, i: nat, z: Zone): Zone
    requires i < |text|
  {
    match z
    case Code =>
      if Pair(text, i, '-', '-') then InLine
      else if Pair(text, i, '/', '*') then Opening
      else if Quote(text[i]) then InQuotes(text[i])
      else Code
    case InLine => if i + 1 == |text| || text[i + 1] == '\n' then Code else InLine
    case Opening => InBlock
    case InBlock => if Pair(text, i, '*', '/') then Closing else InBlock
    case Closing => Code
    case InQuotes(q) => if Pair(text, i, q, q) then Doubled(q) else if text[i] == q then Code else InQuotes(q)
    case Doubled(q) => InQuotes(q)
  }

  function ZoneAt(text: string, i: nat): Zone
    requires i <= |text|
  {
    if i == 0 then Code else NextZone(text, i - 1, ZoneAt(text, i - 1))
  }

  predicate CommentZone(z: Zone) {
    z.InLine? || z.Opening? || z.InBlock? || z.Closing?
  }

  predicate StringZone(z: Zone) {
    z.InQuotes? || z.Doubled?
  }

  /** The character at `i` belongs to a comment, its marks included. */
  predicate InComment(text: string, i: nat)
    requires i < |text|
  {
    CommentZone(ZoneAt(text, i)) || (ZoneAt(text, i).Code? && CommentZone(ZoneAt(text, i + 1)))
  }

  /** The character at `i` belongs to a string, its quotes included. */
  predicate InString(text: string, i: nat)
    requires i < |text|
  {
    StringZone(ZoneAt(text, i)) || (ZoneAt(text, i).Code? && StringZone(ZoneAt(text, i + 1)))
  }

  // ---------------------------------------------------------------- matches keep to one zone

  ghost predicate AllComment(text: string, a: nat, b: nat) {
    a <= b <= |text| && forall k :: a <= k < b ==> InComment(text, k)
  }

  ghost predicate AllString(text: string, a: nat, b: nat) {
    a <= b <= |text| && forall k :: a <= k < b ==> InString(text, k)
  }

  ghost predicate AllCode(text: string, a: nat, b: nat) {
    a <= b <= |text| && forall k :: a <= k < b ==> !InComment(text, k) && !InString(text, k)
  }

  /** Lexing may go on at `i`: it is code, or the text is over. */
  ghost predicate Resumes(text: string, i: nat) {
    i == |text| || (i < |text| && ZoneAt(text, i).Code?)
  }

  lemma {:induction false} LineIsComment(text: string, i: nat)
    requires i <= |text|
    requires if i < |text| && text[i] != '\n' then ZoneAt(text, i).InLine? else Resumes(text, i)
    ensures AllComment(text, i, LineEnd(text, i)) && Resumes(text, LineEnd(text, i))
    decreases |text| - i
  {
    if i < |text| && text[i] != '\n' {
      LineIsComment(text, i + 1);
    }
  }

  lemma {:induction false} BlockIsComment(text: string, i: nat)
    requires i <= |text| && ZoneAt(text, i).InBlock?
    ensures AllComment(text, i, BlockEnd(text, i)) && Resumes(text, BlockEnd(text, i))
    decreases |text| - i
  {
    if i < |text| {
      if Pair(text, i, '*', '/') {
        assert ZoneAt(text, i + 1).Closing? && ZoneAt(text, i + 2).Code?;
      } else {
        BlockIsComment(text, i + 1);
      }
    }
  }

  lemma {:induction false} QuotesAreString(text: string, i: nat, q: char)
    requires i <= |text| && ZoneAt(text, i) == InQuotes(q)
    ensures AllString(text, i, QuoteEnd(text, i, q)) && Resumes(text, QuoteEnd(text, i, q))
    decreases |text| - i
  {
    if i < |text| {
      if Pair(text, i, q, q) {
        assert ZoneAt(text, i + 1) == Doubled(q) && ZoneAt(text, i + 2) == InQuotes(q);
        QuotesAreString(text, i + 2, q);
      } else if text[i] == q {
        assert ZoneAt(text, i + 1).Code?;
      } else {
        QuotesAreString(text, i + 1, q);
      }
    }
  }

  predicate Opens(text: string, i: nat)
    requires i < |text|
  {
    Pair(text, i, '-', '-') || Pair(text, i, '/', '*') || Quote(text[i])
  }

  /** Where nothing opens, code stays code. */
  lemma {:induction false} CodeStaysCode(text: string, a: nat, b: nat)
    requires a <= b <= |text| && ZoneAt(text, a).Code?
    requires forall k: nat :: a <= k < b ==> !Opens(text, k)
    ensures AllCode(text, a, b) && ZoneAt(text, b).Code?
    decreases b - a
  {
    if a < b {
      assert !Opens(text, a);
      CodeStaysCode(text, a + 1, b);
    }
  }

  lemma {:induction false} DigitsOpenNothing(text: string, i: nat)
    requires i <= |text|
    ensures forall k: nat :: i <= k < DigitsEnd(text, i) ==> !Opens(text, k)
    decreases |text| - i
  {
    if i < |text| && Digit(text[i]) {
      DigitsOpenNothing(text, i + 1);
    }
  }

  lemma {:induction false} WordsOpenNothing(text: string, i: nat)
    requires i <= |text|
    ensures forall k: nat :: i <= k < WordEnd(text, i) ==> !Opens(text, k)
    decreases |text| - i
  {
    if i < |text| && WordChar(text[i]) {
      WordsOpenNothing(text, i + 1);
    }
  }

  lemma NumbersOpenNothing(text: string, i: nat)
    requires i < |text| && NumberEnd(text, i).Some?
    ensures i < NumberEnd(text, i).value <= |text|
    ensures forall k: nat :: i <= k < NumberEnd(text, i).value ==> !Opens(text, k)
  {
    var whole := DigitsEnd(text, i);
    var fraction := FractionEnd(text, whole);
    var exponent := ExponentEnd(text, fraction);
    DigitsOpenNothing(text, i);
    if fraction > whole {
      DigitsOpenNothing(text, whole + 1);
    }
    if exponent > fraction {
      var signed := text[fraction + 1] == '+' || text[fraction + 1] == '-';
      DigitsOpenNothing(text, if signed then fraction + 2 else fraction + 1);
    }
  }

  /** A match that starts in code lies in one zone, and its kind says which. */
  lemma MatchKeepsZone(text: string, i: nat, words: set<string>)
    requires i < |text| && ZoneAt(text, i).Code? && SqlMatch(text, i, words).Some?
    ensures var found := SqlMatch(text, i, words).value;
            && i < found.end <= |text| && Resumes(text, found.end)
            && match found.kind
               case Comment => AllComment(text, i, found.end)
               case String => AllString(text, i, found.end)
               case _ => AllCode(text, i, found.end)
  {
    if Pair(text, i, '-', '-') {
      assert ZoneAt(text, i + 1).InLine?;
      assert LineEnd(text, i + 1) == LineEnd(text, i + 2);
      LineIsComment(text, i + 1);
    } else if Pair(text, i, '/', '*') {
      assert ZoneAt(text, i + 1).Opening? && ZoneAt(text, i + 2).InBlock?;
      BlockIsComment(text, i + 2);
    } else if Quote(text[i]) {
      assert ZoneAt(text, i + 1) == InQuotes(text[i]);
      QuotesAreString(text, i + 1, text[i]);
    } else if NumberEnd(text, i).Some? {
      NumbersOpenNothing(text, i);
      CodeStaysCode(text, i, NumberEnd(text, i).value);
    } else {
      WordsOpenNothing(text, i);
      CodeStaysCode(text, i, WordEnd(text, i));
    }
  }

  // ---------------------------------------------------------------- colours are zones

  /** The glyph shows the character at `k`, in the comment or string colour exactly if it is in one. */
  ghost predicate RightGlyph(text: string, k: nat, g: Glyph)
    requires k < |text|
  {
    && g.0 == text[k]
    && (g.1.None? <==> text[k] == '\n')
    && (g.1.Some? ==> (g.1.value.Comment? <==> InComment(text, k)) && (g.1.value.String? <==> InString(text, k)))
  }

  ghost predicate RightGlyphs(text: string, a: nat, glyphs: seq<Glyph>) {
    a + |glyphs| <= |text| && forall k: nat :: k < |glyphs| ==> RightGlyph(text, a + k, glyphs[k])
  }

  lemma ZonesExclude(text: string, k: nat)
    requires k < |text|
    ensures !(InComment(text, k) && InString(text, k))
  {
  }

  lemma OneZoneIsRight(text: string, a: nat, b: nat, kind: Kind)
    requires a <= b <= |text|
    requires match kind
             case Comment => AllComment(text, a, b)
             case String => AllString(text, a, b)
             case _ => AllCode(text, a, b)
    ensures RightGlyphs(text, a, Colour(text[a..b], kind))
  {
    var glyphs := Colour(text[a..b], kind);
    forall k: nat | k < |glyphs| ensures RightGlyph(text, a + k, glyphs[k]) {
      assert text[a..b][k] == text[a + k];
      ZonesExclude(text, a + k);
    }
  }

  lemma RightGlyphsConcat(text: string, a: nat, x: seq<Glyph>, y: seq<Glyph>)
    requires RightGlyphs(text, a, x) && RightGlyphs(text, a + |x|, y)
    ensures RightGlyphs(text, a, x + y)
  {
    forall k: nat | k < |x + y| ensures RightGlyph(text, a + k, (x + y)[k]) {
      if k < |x| {
        assert RightGlyph(text, a + k, x[k]);
      } else {
        assert RightGlyph(text, a + |x| + (k - |x|), y[k - |x|]);
      }
    }
  }

  /** Where the pattern does not match, nothing opens. */
  lemma GapIsCode(text: string, a: nat, b: nat, words: set<string>)
    requires a <= b <= |text| && Resumes(text, a)
    requires forall k: nat :: a <= k < b ==> SqlMatch(text, k, words).None?
    ensures AllCode(text, a, b) && (b < |text| ==> ZoneAt(text, b).Code?)
  {
    if a < |text| {
      forall k: nat | a <= k < b ensures !Opens(text, k) {
        assert SqlMatch(text, k, words).None?;
      }
      CodeStaysCode(text, a, b);
    }
  }

  /**
    * Highlighting agrees with SQL: every character of a comment, and no other, has the comment colour;
    * likewise for strings. So a keyword never starts inside either, over any number of lines.
    */
  lemma {:induction false} ColoursAreZones(text: string, words: set<string>, offset: nat)
    requires offset <= |text| && Resumes(text, offset) && NonEmptyMatches(SqlPattern(words))
    ensures var glyphs := Painted(text, SqlPattern(words), offset);
            |glyphs| == |text| - offset && RightGlyphs(text, offset, glyphs)
    decreases |text| - offset
  {
    var m := SqlPattern(words);
    var i := NextMatch(text, m, offset);
    GapIsRight(text, words, offset);
    if i == |text| {
      assert text[offset..] == text[offset..i];
    } else {
      var found := SqlMatch(text, i, words).value;
      PieceIsRight(text, words, offset, i);
      ColoursAreZones(text, words, found.end);
      RightGlyphsConcat(text, offset, Colour(text[offset..i], Plain) + Colour(text[i..found.end], found.kind),
                        Painted(text, m, found.end));
    }
  }

  lemma GapIsRight(text: string, words: set<string>, offset: nat)
    requires offset <= |text| && Resumes(text, offset)
    ensures var i := NextMatch(text, SqlPattern(words), offset);
            (i < |text| ==> ZoneAt(text, i).Code?) && RightGlyphs(text, offset, Colour(text[offset..i], Plain))
  {
    var m := SqlPattern(words);
    var i := NextMatch(text, m, offset);
    forall k: nat | offset <= k < i ensures SqlMatch(text, k, words).None? {
      assert m(text, k).None?;
    }
    GapIsCode(text, offset, i, words);
    OneZoneIsRight(text, offset, i, Plain);
  }

  lemma PieceIsRight(text: string, words: set<string>, offset: nat, i: nat)
    requires offset <= i < |text| && ZoneAt(text, i).Code? && SqlMatch(text, i, words).Some?
    requires RightGlyphs(text, offset, Colour(text[offset..i], Plain))
    ensures var found := SqlMatch(text, i, words).value;
            && i < found.end <= |text| && Resumes(text, found.end)
            && RightGlyphs(text, offset, Colour(text[offset..i], Plain) + Colour(text[i..found.end], found.kind))
  {
    var found := SqlMatch(text, i, words).value;
    MatchKeepsZone(text, i, words);
    OneZoneIsRight(text, i, found.end, found.kind);
    RightGlyphsConcat(text, offset, Colour(text[offset..i], Plain), Colour(text[i..found.end], found.kind));
  }

  /** No character of a comment or string is shown as a keyword. */
  lemma KeywordsAreCode(text: string, words: set<string>, k: nat)
    requires k < |text| && NonEmptyMatches(SqlPattern(words))
    ensures k < |Painted(text, SqlPattern(words), 0)|
    ensures Painted(text, SqlPattern(words), 0)[k].1 == Some(Keyword) ==> !InComment(text, k) && !InString(text, k)
  {
    ColoursAreZones(text, words, 0);
    assert RightGlyph(text, 0 + k, Painted(text, SqlPattern(words), 0)[k]);
  }

  // ---------------------------------------------------------------- keywords are the listed words

  predicate Capital(c: char) {
    'A' <= c <= 'Z'
  }

  /** The word, with any of its letters written as capitals. */
  predicate Spells(s: string, word: string) {
    && |s| == |word|
    && forall i :: 0 <= i < |s| ==> if Capital(s[i]) then word[i] as int == s[i] as int + 32 else word[i] == s[i]
  }

  lemma LowerCaseIsSpelled(s: string, word: string)
    ensures LowerCase(s) == word <==> Spells(s, word)
  {
    if Spells(s, word) {
      forall i | 0 <= i < |s| ensures LowerCase(s)[i] == word[i] {
      }
    }
  }

  /** One of the listed words stands between `a` and `b`, in whatever case. */
  predicate Listed(text: string, a: nat, b: nat, words: set<string>)
    requires a <= b <= |text|
  {
    exists word :: word in words && Spells(text[a..b], word)
  }

  /** A whole word: from one word boundary to the next, starting with a letter. */
  predicate IsWord(text: string, a: nat, b: nat) {
    && a < b <= |text| && Letter(text[a]) && (forall k :: a <= k < b ==> WordChar(text[k]))
    && (a == 0 || !WordChar(text[a - 1])) && Stops(text, b)
  }

  lemma {:induction false} WordEndsThere(text: string, a: nat, b: nat)
    requires a <= b <= |text| && (forall k :: a <= k < b ==> WordChar(text[k])) && Stops(text, b)
    ensures WordEnd(text, a) == b
    decreases b - a
  {
    if a < b {
      WordEndsThere(text, a + 1, b);
    }
  }

  lemma {:induction false} WordHoldsWordChars(text: string, i: nat)
    requires i <= |text|
    ensures forall k :: i <= k < WordEnd(text, i) ==> WordChar(text[k])
    decreases |text| - i
  {
    if i < |text| && WordChar(text[i]) {
      WordHoldsWordChars(text, i + 1);
    }
  }

  lemma WordHoldsNoWord(text: string, i: nat, a: nat)
    requires i <= |text| && i < a < WordEnd(text, i)
    ensures WordChar(text[a - 1])
  {
    WordHoldsWordChars(text, i);
  }

  lemma WordIsMatched(text: string, a: nat, b: nat, words: set<string>)
    requires IsWord(text, a, b)
    ensures SqlMatch(text, a, words) == Some(Match(b, if Listed(text, a, b, words) then Keyword else Plain))
  {
    WordEndsThere(text, a, b);
    LowerCaseIsSpelled(text[a..b], LowerCase(text[a..b]));
    if Listed(text, a, b, words) {
      var word :| word in words && Spells(text[a..b], word);
      LowerCaseIsSpelled(text[a..b], word);
    }
  }

  /** A letter inside a number has a word character before it. */
  lemma NumberHoldsNoWord(text: string, i: nat, a: nat)
    requires i < |text| && NumberEnd(text, i).Some? && i < a < NumberEnd(text, i).value <= |text| && Letter(text[a])
    ensures WordChar(text[a - 1])
  {
    var w, f, e := NumberIsNumber(text, i);
    assert a == f;
    assert Digit(text[f - 1]);
  }

  /** A match that starts in code before a whole word in code ends before it. */
  lemma MatchEndsBeforeWord(text: string, i: nat, a: nat, b: nat, words: set<string>)
    requires i < a && IsWord(text, a, b) && ZoneAt(text, i).Code? && SqlMatch(text, i, words).Some?
    requires !InComment(text, a) && !InString(text, a)
    ensures SqlMatch(text, i, words).value.end <= a
  {
    MatchKeepsZone(text, i, words);
    var found := SqlMatch(text, i, words).value;
    if a < found.end && (found.kind.Keyword? || found.kind.Plain?) {
      WordHoldsNoWord(text, i, a);
    }
    if a < found.end && found.kind.Number? {
      NumberHoldsNoWord(text, i, a);
    }
  }

  /** Of the glyphs from `offset` on, those from `a` to `b` show the text in the colour `kind`. */
  ghost predicate ShownAs(text: string, glyphs: seq<Glyph>, offset: nat, a: nat, b: nat, kind: Kind) {
    && offset <= a <= b <= |text| && b <= offset + |glyphs|
    && glyphs[a - offset..b - offset] == Colour(text[a..b], kind)
  }

  lemma MiddleSlice(x: seq<Glyph>, y: seq<Glyph>, z: seq<Glyph>)
    ensures (x + y + z)[|x|..|x| + |y|] == y
  {
  }

  lemma LaterSlice(x: seq<Glyph>, z: seq<Glyph>, p: nat, q: nat)
    requires p <= q <= |z|
    ensures (x + z)[|x| + p..|x| + q] == z[p..q]
  {
  }

  lemma MatchedWordIsShown(text: string, words: set<string>, offset: nat, a: nat, b: nat)
    requires NonEmptyMatches(SqlPattern(words)) && offset <= a && IsWord(text, a, b)
    requires NextMatch(text, SqlPattern(words), offset) == a
    ensures ShownAs(text, Painted(text, SqlPattern(words), offset), offset, a, b,
                    if Listed(text, a, b, words) then Keyword else Plain)
  {
    WordIsMatched(text, a, b, words);
    var kind := if Listed(text, a, b, words) then Keyword else Plain;
    MiddleSlice(Colour(text[offset..a], Plain), Colour(text[a..b], kind), Painted(text, SqlPattern(words), b));
  }

  lemma LaterWordIsShown(text: string, words: set<string>, offset: nat, i: nat, a: nat, b: nat, kind: Kind)
    requires NonEmptyMatches(SqlPattern(words)) && offset <= i < |text|
    requires NextMatch(text, SqlPattern(words), offset) == i && SqlMatch(text, i, words).Some?
    requires var end := SqlMatch(text, i, words).value.end;
      i < end <= |text| && ShownAs(text, Painted(text, SqlPattern(words), end), end, a, b, kind)
    ensures ShownAs(text, Painted(text, SqlPattern(words), offset), offset, a, b, kind)
  {
    var found := SqlMatch(text, i, words).value;
    var first := Colour(text[offset..i], Plain) + Colour(text[i..found.end], found.kind);
    LaterSlice(first, Painted(text, SqlPattern(words), found.end), a - found.end, b - found.end);
  }

  lemma {:induction false} WordIsShown(text: string, words: set<string>, offset: nat, a: nat, b: nat)
    requires NonEmptyMatches(SqlPattern(words)) && offset <= a && Resumes(text, offset) && IsWord(text, a, b)
    requires !InComment(text, a) && !InString(text, a)
    ensures ShownAs(text, Painted(text, SqlPattern(words), offset), offset, a, b,
                    if Listed(text, a, b, words) then Keyword else Plain)
    decreases |text| - offset
  {
    var m := SqlPattern(words);
    var i := NextMatch(text, m, offset);
    WordIsMatched(text, a, b, words);
    assert m(text, a).Some?;
    GapIsRight(text, words, offset);
    if i == a {
      MatchedWordIsShown(text, words, offset, a, b);
    } else {
      MatchKeepsZone(text, i, words);
      MatchEndsBeforeWord(text, i, a, b, words);
      WordIsShown(text, words, SqlMatch(text, i, words).value.end, a, b);
      LaterWordIsShown(text, words, offset, i, a, b, if Listed(text, a, b, words) then Keyword else Plain);
    }
  }

  /** A whole word outside comments and strings is shown as a keyword exactly if it is listed, in whatever case. */
  lemma KeywordsAreListedWords(text: string, words: set<string>, a: nat, b: nat)
    requires NonEmptyMatches(SqlPattern(words)) && IsWord(text, a, b)
    requires !InComment(text, a) && !InString(text, a)
    ensures ShownAs(text, Painted(text, SqlPattern(words), 0), 0, a, b,
                    if Listed(text, a, b, words) then Keyword else Plain)
  {
    WordIsShown(text, words, 0, a, b);
  }
}
