/** How `json.dumps` writes strings and integers in ASCII, and how they are read back. */
module JsonText {
  import opened Characters
  import opened Results

  // ---------------------------------------------------------------- prefixes

  /** `s` without the prefix, if it has it. */
  function Eat(prefix: string, s: string): (rest: Option<string>)
    ensures rest.Some? ==> |s| == |prefix| + |rest.value|
  {
    if prefix <= s then Some(s[|prefix|..]) else None
  }

  lemma EatsPrefix(prefix: string, rest: string)
    ensures Eat(prefix, prefix + rest) == Some(rest)
  {
  }

  lemma EatsNothing(prefix: string, s: string)
    requires prefix != "" && (s == "" || s[0] != prefix[0])
    ensures Eat(prefix, s) == None
  {
  }

  lemma Regroup3(a: string, b: string, c: string)
    ensures a + b + c == a + (b + c)
  {
  }

  /** Text made of two pieces and a rest is the first piece followed by everything else. */
  lemma Chain2(a: string, b: string, rest: string)
    ensures a + b + rest == a + (b + rest)
  {
  }

  lemma Chain3(a: string, b: string, c: string, rest: string)
    ensures a + b + c + rest == a + (b + (c + rest))
  {
  }

  lemma Chain4(a: string, b: string, c: string, d: string, rest: string)
    ensures a + b + c + d + rest == a + (b + (c + (d + rest)))
  {
  }

  lemma Chain5(a: string, b: string, c: string, d: string, e: string, rest: string)
    ensures a + b + c + d + e + rest == a + (b + (c + (d + (e + rest))))
  {
  }

  /** `sep.join(texts)`. */
  function JoinWith(sep: string, texts: seq<string>): string {
    if texts == [] then "" else if |texts| == 1 then texts[0] else texts[0] + sep + JoinWith(sep, texts[1..])
  }

  lemma JoinWithBegins(sep: string, texts: seq<string>)
    requires texts != [] && texts[0] != ""
    ensures JoinWith(sep, texts) != "" && JoinWith(sep, texts)[0] == texts[0][0]
  {
  }

  // ---------------------------------------------------------------- hexadecimal escapes

  function HexDigit(n: nat): char
    requires n < 16
  {
    if n < 10 then ('0' as int + n) as char else ('a' as int + n - 10) as char
  }

  function HexValue(c: char): Option<nat> {
    if '0' <= c <= '9' then Some(c as int - '0' as int)
    else if 'a' <= c <= 'f' then Some(c as int - 'a' as int + 10)
    else None
  }

  lemma HexRoundTrip(n: nat)
    requires n < 16
    ensures HexValue(HexDigit(n)) == Some(n)
  {
  }

  function Hex4(n: nat): string
    requires n < 0x10000
  {
    [HexDigit(n / 16 / 16 / 16), HexDigit(n / 16 / 16 % 16), HexDigit(n / 16 % 16), HexDigit(n % 16)]
  }

  function ReadHex4(s: string): (r: Option<(nat, string)>)
    ensures r.Some? ==> |r.value.1| == |s| - 4
  {
    if |s| < 4 then None
    else
      var a, b, c, d := HexValue(s[0]), HexValue(s[1]), HexValue(s[2]), HexValue(s[3]);
      if a.None? || b.None? || c.None? || d.None? then None
      else Some((((a.value * 16 + b.value) * 16 + c.value) * 16 + d.value, s[4..]))
  }

  lemma ReadsHexDigits(a: nat, b: nat, c: nat, d: nat, rest: string)
    requires a < 16 && b < 16 && c < 16 && d < 16
    ensures ReadHex4([HexDigit(a), HexDigit(b), HexDigit(c), HexDigit(d)] + rest) ==
      Some((((a * 16 + b) * 16 + c) * 16 + d, rest))
  {
    HexRoundTrip(a);
    HexRoundTrip(b);
    HexRoundTrip(c);
    HexRoundTrip(d);
    assert ([HexDigit(a), HexDigit(b), HexDigit(c), HexDigit(d)] + rest)[4..] == rest;
  }

  lemma Hex4RoundTrip(n: nat, rest: string)
    requires n < 0x10000
    ensures ReadHex4(Hex4(n) + rest) == Some((n, rest))
  {
    ReadsHexDigits(n / 16 / 16 / 16, n / 16 / 16 % 16, n / 16 % 16, n % 16, rest);
  }

  // ---------------------------------------------------------------- strings

  predicate Printable(c: char) {
    ' ' <= c <= '~' && c != '"' && c != '\\'
  }

  /** The letter of a short escape, if the character has one. */
  function ShortEscape(c: char): Option<char> {
    match c
    case '"' => Some('"')
    case '\\' => Some('\\')
    case '\n' => Some('n')
    case '\r' => Some('r')
    case '\t' => Some('t')
    case '\U{8}' => Some('b')
    case '\U{C}' => Some('f')
    case _ => None
  }

  function ShortMeaning(letter: char): Option<char> {
    match letter
    case '"' => Some('"')
    case '\\' => Some('\\')
    case 'n' => Some('\n')
    case 'r' => Some('\r')
    case 't' => Some('\t')
    case 'b' => Some('\U{8}')
    case 'f' => Some('\U{C}')
    case _ => None
  }

  const ESCAPE: string := ['\\', 'u']

  /** One character: as it is, with a short escape, or in hexadecimal; two surrogates beyond the basic plane. */
  function Escape(c: char): (text: string)
    ensures text != ""
  {
    if Printable(c) then [c]
    else if ShortEscape(c).Some? then ['\\', ShortEscape(c).value]
    else if c as int < 0x10000 then ESCAPE + Hex4(c as int)
    else
      EscapePair(0xD800 + (c as int - 0x10000) / 0x400, 0xDC00 + (c as int - 0x10000) % 0x400)
  }

  function EscapePair(high: nat, low: nat): (text: string)
    requires high < 0x10000 && low < 0x10000
    ensures text != ""
  {
    ESCAPE + Hex4(high) + (ESCAPE + Hex4(low))
  }

  predicate HighSurrogate(n: nat) {
    0xD800 <= n < 0xDC00
  }

  predicate LowSurrogate(n: nat) {
    0xDC00 <= n < 0xE000
  }

  /** Reads one character of a quoted string. */
  function ReadChar(s: string): (r: Option<(char, string)>)
    ensures r.Some? ==> |r.value.1| < |s|
  {
    if s == "" || s[0] == '"' then None
    else if s[0] != '\\' then (if Printable(s[0]) then Some((s[0], s[1..])) else None)
    else if |s| < 2 then None
    else if s[1] != 'u' then
      (if ShortMeaning(s[1]).Some? then Some((ShortMeaning(s[1]).value, s[2..])) else None)
    else
      var first := ReadHex4(s[2..]);
      if first.None? then None
      else if HighSurrogate(first.value.0) then ReadLow(first.value.0, first.value.1)
      else if LowSurrogate(first.value.0) || first.value.0 >= 0x10000 then None
      else Some((first.value.0 as char, first.value.1))
  }

  function ReadLow(high: nat, s: string): (r: Option<(char, string)>)
    requires HighSurrogate(high)
    ensures r.Some? ==> |r.value.1| < |s|
  {
    var tail := Eat(ESCAPE, s);
    if tail.None? then None
    else
      var second := ReadHex4(tail.value);
      if second.None? || !LowSurrogate(second.value.0) then None
      else Some(((0x10000 + (high - 0xD800) * 0x400 + (second.value.0 - 0xDC00)) as char, second.value.1))
  }

  lemma SurrogateArithmetic(n: nat)
    requires n < 0x100000
    ensures n / 0x400 < 0x400 && n == n / 0x400 * 0x400 + n % 0x400
  {
  }

  lemma ReadsHexEscape(code: nat, rest: string)
    requires code < 0x10000
    ensures var s := ESCAPE + Hex4(code) + rest;
            && |s| >= 2 && s[0] == '\\' && s[1] == 'u' && ReadHex4(s[2..]) == Some((code, rest))
            && s == ESCAPE + (Hex4(code) + rest)
  {
    Hex4RoundTrip(code, rest);
    assert (ESCAPE + Hex4(code) + rest)[2..] == Hex4(code) + rest;
  }

  lemma ReadsEscape(c: char, rest: string)
    ensures ReadChar(Escape(c) + rest) == Some((c, rest))
  {
    if Printable(c) {
      assert (Escape(c) + rest)[1..] == rest;
    } else if ShortEscape(c).Some? {
      assert (Escape(c) + rest)[2..] == rest;
    } else if c as int < 0x10000 {
      ReadsHexEscape(c as int, rest);
    } else {
      ReadsSurrogates(c, rest);
    }
  }

  lemma ReadsLow(high: nat, low: nat, rest: string)
    requires HighSurrogate(high) && LowSurrogate(low)
    ensures ReadLow(high, ESCAPE + Hex4(low) + rest) ==
      Some(((0x10000 + (high - 0xD800) * 0x400 + (low - 0xDC00)) as char, rest))
  {
    ReadsHexEscape(low, rest);
    EatsPrefix(ESCAPE, Hex4(low) + rest);
    Hex4RoundTrip(low, rest);
  }

  lemma ReadsPair(high: nat, low: nat, rest: string)
    requires HighSurrogate(high) && LowSurrogate(low)
    ensures ReadChar(EscapePair(high, low) + rest) ==
            Some(((0x10000 + (high - 0xD800) * 0x400 + (low - 0xDC00)) as char, rest))
  {
    var tail := ESCAPE + Hex4(low) + rest;
    ReadsLow(high, low, rest);
    ReadsHexEscape(high, tail);
    Regroup3(ESCAPE + Hex4(high), ESCAPE + Hex4(low), rest);
    assert ReadChar(ESCAPE + Hex4(high) + tail) == ReadLow(high, tail);
  }

  lemma AstralEscape(c: char, high: nat, low: nat)
    requires c as int >= 0x10000
    requires high == 0xD800 + (c as int - 0x10000) / 0x400 && low == 0xDC00 + (c as int - 0x10000) % 0x400
    ensures HighSurrogate(high) && LowSurrogate(low) && Escape(c) == EscapePair(high, low)
    ensures (0x10000 + (high - 0xD800) * 0x400 + (low - 0xDC00)) == c as int
  {
    SurrogateArithmetic(c as int - 0x10000);
  }

  lemma ReadsSurrogates(c: char, rest: string)
    requires c as int >= 0x10000
    ensures ReadChar(Escape(c) + rest) == Some((c, rest))
  {
    var high, low := 0xD800 + (c as int - 0x10000) / 0x400, 0xDC00 + (c as int - 0x10000) % 0x400;
    AstralEscape(c, high, low);
    ReadsPair(high, low, rest);
  }

  function Escaped(s: string): string {
    if s == "" then "" else Escape(s[0]) + Escaped(s[1..])
  }

  const QUOTE: string := ['"']

  /** `json.dumps(s)` for a string. */
  function Quoted(s: string): string {
    QUOTE + Escaped(s) + QUOTE
  }

  /** Reads to the closing quote. */
  function ReadEscaped(s: string): (r: Option<(string, string)>)
    ensures r.Some? ==> |r.value.1| < |s|
    decreases |s|
  {
    if s == "" then None
    else if s[0] == '"' then Some(("", s[1..]))
    else
      var first := ReadChar(s);
      if first.None? then None
      else
        var more := ReadEscaped(first.value.1);
        if more.None? then None else Some(([first.value.0] + more.value.0, more.value.1))
  }

  function ReadQuoted(s: string): (r: Option<(string, string)>)
    ensures r.Some? ==> |r.value.1| < |s|
  {
    if s == "" || s[0] != '"' then None else ReadEscaped(s[1..])
  }

  lemma EscapeIsNoQuote(c: char, rest: string)
    ensures (Escape(c) + rest)[0] != '"'
  {
    assert (Escape(c) + rest)[0] == Escape(c)[0];
  }

  lemma {:induction false} ReadsEscaped(s: string, rest: string)
    ensures ReadEscaped(Escaped(s) + (QUOTE + rest)) == Some((s, rest))
  {
    var tail := QUOTE + rest;
    if s == "" {
      assert "" + tail == tail && tail[1..] == rest;
    } else {
      ReadsEscaped(s[1..], rest);
      Regroup3(Escape(s[0]), Escaped(s[1..]), tail);
      ReadsEscape(s[0], Escaped(s[1..]) + tail);
      EscapeIsNoQuote(s[0], Escaped(s[1..]) + tail);
      assert s == [s[0]] + s[1..];
    }
  }

  /** A written string is read back, whatever follows it. */
  lemma ReadsQuoted(s: string, rest: string)
    ensures ReadQuoted(Quoted(s) + rest) == Some((s, rest)) && Quoted(s)[0] == '"'
  {
    ReadsEscaped(s, rest);
    var text := Quoted(s) + rest;
    assert text[0] == '"';
    assert text[1..] == Escaped(s) + (QUOTE + rest);
  }

  // ---------------------------------------------------------------- integers

  function DigitOf(n: nat): char
    requires n < 10
  {
    ('0' as int + n) as char
  }

  function Digits(n: nat): (text: string)
    ensures text != "" && AllDigits(text)
  {
    if n < 10 then [DigitOf(n)] else Digits(n / 10) + [DigitOf(n % 10)]
  }

  /** `json.dumps(n)` for an integer. */
  function Written(n: int): (text: string)
    ensures text != "" && (text[0] == '-' || Digit(text[0]))
  {
    if n < 0 then ['-'] + Digits(-n) else Digits(n)
  }

  lemma {:induction false} DigitsHaveValue(n: nat)
    ensures Decimal(Digits(n)) == n
  {
    if n < 10 {
      assert Digits(n)[..0] == "";
      assert Decimal("") == 0;
    } else {
      DigitsHaveValue(n / 10);
      assert Digits(n)[..|Digits(n)| - 1] == Digits(n / 10);
    }
  }

  /** The digits at the start of `s`. */
  function LeadingDigits(s: string): (digits: string)
    ensures digits <= s && AllDigits(digits)
  {
    if s != "" && Digit(s[0]) then [s[0]] + LeadingDigits(s[1..]) else ""
  }

  function ReadDigits(s: string): (r: Option<(int, string)>)
    ensures r.Some? ==> |r.value.1| < |s|
  {
    var digits := LeadingDigits(s);
    if digits == "" then None else Some((Decimal(digits), s[|digits|..]))
  }

  function ReadInteger(s: string): (r: Option<(int, string)>)
    ensures r.Some? ==> |r.value.1| < |s|
  {
    if s != "" && s[0] == '-' then
      var r := ReadDigits(s[1..]);
      if r.None? then None else Some((-r.value.0, r.value.1))
    else ReadDigits(s)
  }

  lemma {:induction false} LeadingDigitsStop(digits: string, rest: string)
    requires AllDigits(digits)
    requires rest == "" || !Digit(rest[0])
    ensures LeadingDigits(digits + rest) == digits
  {
    if digits == "" {
      assert digits + rest == rest;
    } else {
      assert (digits + rest)[0] == digits[0] && (digits + rest)[1..] == digits[1..] + rest;
      LeadingDigitsStop(digits[1..], rest);
      assert digits == [digits[0]] + digits[1..];
    }
  }

  lemma ReadsDigits(n: nat, rest: string)
    requires rest == "" || !Digit(rest[0])
    ensures ReadDigits(Digits(n) + rest) == Some((n, rest))
  {
    DigitsHaveValue(n);
    LeadingDigitsStop(Digits(n), rest);
    assert (Digits(n) + rest)[|Digits(n)|..] == rest;
  }

  lemma ReadsNegative(digits: string, n: int, rest: string)
    requires ReadDigits(digits + rest) == Some((n, rest))
    ensures ReadInteger(['-'] + digits + rest) == Some((-n, rest))
  {
    assert (['-'] + digits + rest)[1..] == digits + rest;
  }

  lemma ReadsPositive(digits: string, n: nat, rest: string)
    requires digits != "" && Digit(digits[0]) && ReadDigits(digits + rest) == Some((n, rest))
    ensures ReadInteger(digits + rest) == Some((n, rest))
  {
    assert (digits + rest)[0] == digits[0];
  }

  /** A written integer is read back, if no digit follows it. */
  lemma ReadsInteger(n: int, rest: string)
    requires rest == "" || !Digit(rest[0])
    ensures ReadInteger(Written(n) + rest) == Some((n, rest))
  {
    if n < 0 {
      ReadsDigits(-n, rest);
      ReadsNegative(Digits(-n), -n, rest);
    } else {
      ReadsDigits(n, rest);
      ReadsPositive(Digits(n), n, rest);
    }
  }
}
