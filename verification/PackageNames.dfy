/** Package identifiers: `package_id` in tools/safety/baseline.py. */
module PackageNames {
  import opened Results

  datatype Ecosystem = Cargo | Npm | PyPI {
    function Label(): string {
      match this
      case Cargo => "crates.io"
      case Npm => "npm"
      case PyPI => "PyPI"
    }
  }

  datatype Error = InvalidName | InvalidVersion

  predicate Separator(c: char) {
    c == '-' || c == '_' || c == '.'
  }

  /**
    * Lower case as far as a valid name can tell: the Kelvin sign is the one character outside ASCII
    * that becomes an ASCII letter; every other one stays outside ASCII and is refused by `ValidName`.
    */
  function Lower(c: char): char {
    if 'A' <= c <= 'Z' then (c as int + 32) as char else if c == '\U{212A}' then 'k' else c
  }

  function SkipSeparators(s: string): (rest: string)
    ensures |rest| <= |s|
  {
    if s != "" && Separator(s[0]) then SkipSeparators(s[1..]) else s
  }

  /** Normalized names: every run of separators is one hyphen, and letters are lower case. */
  function Normalize(name: string): string
    decreases |name|
  {
    if name == "" then ""
    else if Separator(name[0]) then "-" + Normalize(SkipSeparators(name[1..]))
    else [Lower(name[0])] + Normalize(name[1..])
  }

  predicate NameChar(c: char) {
    'A' <= c <= 'Z' || 'a' <= c <= 'z' || '0' <= c <= '9' || c in "@_./+-"
  }

  predicate VersionChar(c: char) {
    'A' <= c <= 'Z' || 'a' <= c <= 'z' || '0' <= c <= '9' || c in "_.+-"
  }

  predicate ValidName(s: string) {
    s != "" && forall i :: 0 <= i < |s| ==> NameChar(s[i])
  }

  predicate ValidVersion(s: string) {
    s != "" && forall i :: 0 <= i < |s| ==> VersionChar(s[i])
  }

  function CanonicalName(eco: Ecosystem, name: string): string {
    if eco.PyPI? then Normalize(name) else name
  }

  function PackageId(eco: Ecosystem, name: string, version: string): Result<string, Error> {
    var canonical := CanonicalName(eco, name);
    if !ValidName(canonical) then Err(InvalidName)
    else if !ValidVersion(version) then Err(InvalidVersion)
    else Ok(eco.Label() + ":" + canonical + "@" + version)
  }

  // ---------------------------------------------------------------- normalisation

  /** Names that PEP 503 calls normalized: lower case, hyphens only, never two in a row. */
  predicate Normal(s: string) {
    && (forall i :: 0 <= i < |s| ==> s[i] != '_' && s[i] != '.' && s[i] == Lower(s[i]))
    && (forall i :: 0 <= i < |s| - 1 ==> !(s[i] == '-' && s[i + 1] == '-'))
  }

  lemma {:induction false} SkipLeavesNoSeparator(s: string)
    ensures SkipSeparators(s) != "" ==> !Separator(SkipSeparators(s)[0])
  {
    if s != "" && Separator(s[0]) {
      SkipLeavesNoSeparator(s[1..]);
    }
  }

  lemma {:induction false} NormalizeIsNormal(name: string)
    ensures Normal(Normalize(name))
    ensures name != "" && !Separator(name[0]) ==> Normalize(name) != "" && Normalize(name)[0] != '-'
    decreases |name|
  {
    if name != "" {
      if Separator(name[0]) {
        var rest := SkipSeparators(name[1..]);
        SkipLeavesNoSeparator(name[1..]);
        NormalizeIsNormal(rest);
        var tail := Normalize(rest);
        assert rest == "" ==> tail == "";
        assert forall i :: 1 <= i < |Normalize(name)| ==> Normalize(name)[i] == tail[i - 1];
      } else {
        NormalizeIsNormal(name[1..]);
        var tail := Normalize(name[1..]);
        assert forall i :: 1 <= i < |Normalize(name)| ==> Normalize(name)[i] == tail[i - 1];
      }
    }
  }

  /** The normalized names are exactly the fixed points of normalisation. */
  lemma {:induction false} NormalIsFixed(s: string)
    ensures Normal(s) <==> Normalize(s) == s
    decreases |s|
  {
    if Normal(s) {
      if s != "" {
        assert Normal(s[1..]);
        NormalIsFixed(s[1..]);
        assert s == [s[0]] + s[1..];
        if Separator(s[0]) && |s| > 1 {
          assert s[1] != '-';
          assert SkipSeparators(s[1..]) == s[1..];
        }
      }
    } else {
      NormalizeIsNormal(s);
    }
  }

  /** PEP 503: normalising twice is normalising once. */
  lemma NormalizeIsIdempotent(name: string)
    ensures Normalize(Normalize(name)) == Normalize(name)
  {
    NormalizeIsNormal(name);
    NormalIsFixed(Normalize(name));
  }

  /** The same character, or the same letter in another case. */
  predicate SameLetter(c: char, d: char) {
    || c == d
    || ('A' <= c <= 'Z' && d as int - 'a' as int == c as int - 'A' as int)
    || ('A' <= d <= 'Z' && c as int - 'a' as int == d as int - 'A' as int)
    || (c in {'k', 'K', '\U{212A}'} && d in {'k', 'K', '\U{212A}'})
  }

  /** Names that differ only in the case of letters and in the separators that their runs of separators consist of. */
  predicate Alike(a: string, b: string)
    decreases |a|
  {
    if a == "" || b == "" then a == b
    else if Separator(a[0]) && Separator(b[0]) then Alike(SkipSeparators(a[1..]), SkipSeparators(b[1..]))
    else !Separator(a[0]) && !Separator(b[0]) && SameLetter(a[0], b[0]) && Alike(a[1..], b[1..])
  }

  lemma LowerTellsLetters(c: char, d: char)
    ensures Lower(c) == Lower(d) <==> SameLetter(c, d)
    ensures Separator(Lower(c)) <==> Separator(c)
  {
  }

  lemma SameHeadAndTail(c: char, s: string, d: char, t: string)
    ensures [c] + s == [d] + t <==> c == d && s == t
  {
    assert ([c] + s)[1..] == s && ([d] + t)[1..] == t;
    assert ([c] + s)[0] == c && ([d] + t)[0] == d;
  }

  /** Normalisation identifies names that are alike, and no others. */
  lemma {:induction false} NormalizeIffAlike(a: string, b: string)
    ensures Normalize(a) == Normalize(b) <==> Alike(a, b)
    decreases |a|
  {
    if a != "" && b != "" {
      LowerTellsLetters(a[0], b[0]);
      LowerTellsLetters(b[0], a[0]);
      if Separator(a[0]) && Separator(b[0]) {
        NormalizeIffAlike(SkipSeparators(a[1..]), SkipSeparators(b[1..]));
        SameHeadAndTail('-', Normalize(SkipSeparators(a[1..])), '-', Normalize(SkipSeparators(b[1..])));
      } else if !Separator(a[0]) && !Separator(b[0]) {
        NormalizeIffAlike(a[1..], b[1..]);
        SameHeadAndTail(Lower(a[0]), Normalize(a[1..]), Lower(b[0]), Normalize(b[1..]));
      } else {
        assert Normalize(a)[0] == (if Separator(a[0]) then '-' else Lower(a[0]));
        assert Normalize(b)[0] == (if Separator(b[0]) then '-' else Lower(b[0]));
      }
    }
  }

  predicate SeparatorRun(s: string) {
    s != "" && forall i :: 0 <= i < |s| ==> Separator(s[i])
  }

  lemma {:induction false} SkipRun(run: string, rest: string)
    requires forall i :: 0 <= i < |run| ==> Separator(run[i])
    ensures SkipSeparators(run + rest) == SkipSeparators(rest)
  {
    if run == "" {
      assert run + rest == rest;
    } else {
      assert (run + rest)[0] == run[0] && (run + rest)[1..] == run[1..] + rest;
      SkipRun(run[1..], rest);
    }
  }

  /** Any run of separators may stand for any other, anywhere in a name. */
  lemma {:induction false} SeparatorRunsAreInterchangeable(before: string, run: string, other: string, after: string)
    requires SeparatorRun(run) && SeparatorRun(other)
    ensures Normalize(before + run + after) == Normalize(before + other + after)
    decreases |before|, 0
  {
    var s, t := before + run + after, before + other + after;
    if before == "" {
      assert s[1..] == run[1..] + after && t[1..] == other[1..] + after;
      SkipRun(run[1..], after);
      SkipRun(other[1..], after);
      assert s[0] == run[0] && t[0] == other[0];
    } else {
      assert s[0] == before[0] == t[0];
      assert s[1..] == before[1..] + run + after && t[1..] == before[1..] + other + after;
      if Separator(before[0]) {
        SkippedRunsAreInterchangeable(before[1..], run, other, after);
      } else {
        SeparatorRunsAreInterchangeable(before[1..], run, other, after);
      }
    }
  }

  lemma {:induction false} SkippedRunsAreInterchangeable(before: string, run: string, other: string, after: string)
    requires SeparatorRun(run) && SeparatorRun(other)
    ensures Normalize(SkipSeparators(before + run + after)) == Normalize(SkipSeparators(before + other + after))
    decreases |before|, 1
  {
    var s, t := before + run + after, before + other + after;
    if before == "" {
      assert s == run + after && t == other + after;
      SkipRun(run, after);
      SkipRun(other, after);
    } else {
      assert s[0] == before[0] == t[0];
      assert s[1..] == before[1..] + run + after && t[1..] == before[1..] + other + after;
      if Separator(before[0]) {
        SkippedRunsAreInterchangeable(before[1..], run, other, after);
      } else {
        SeparatorRunsAreInterchangeable(before, run, other, after);
      }
    }
  }

  // ---------------------------------------------------------------- identifiers

  /** The index of the last `@` among the first `n` characters; -1 if there is none. */
  function LastAtBefore(s: string, n: nat): (i: int)
    requires n <= |s|
    ensures -1 <= i < n
    ensures i >= 0 ==> s[i] == '@'
    ensures forall k :: i < k < n ==> s[k] != '@'
  {
    if n == 0 then -1 else if s[n - 1] == '@' then n - 1 else LastAtBefore(s, n - 1)
  }

  /** Where `rsplit("@", 1)` splits. */
  function LastAt(s: string): (i: int)
    ensures -1 <= i < |s|
  {
    LastAtBefore(s, |s|)
  }

  function BeforeLastAt(s: string): string {
    if LastAt(s) == -1 then s else s[..LastAt(s)]
  }

  function AfterLabel(eco: Ecosystem, id: string): string
    requires |id| > |eco.Label()|
  {
    id[|eco.Label()| + 1..]
  }

  lemma LastAtIsFound(s: string, i: nat)
    requires i < |s| && s[i] == '@' && forall k :: i < k < |s| ==> s[k] != '@'
    ensures LastAt(s) == i
  {
  }

  lemma VersionHasNoAt(rest: string, i: nat, version: string)
    requires i < |rest| && rest[i + 1..] == version && ValidVersion(version)
    ensures forall k :: i < k < |rest| ==> rest[k] != '@'
  {
    forall k | i < k < |rest| ensures rest[k] != '@' {
      assert rest[k] == version[k - i - 1];
      assert VersionChar(version[k - i - 1]);
    }
  }

  lemma JoinedParts(prefix: string, middle: string, version: string)
    ensures var id, rest := prefix + ":" + middle + "@" + version, middle + "@" + version;
            && id[|prefix| + 1..] == rest && rest[..|middle|] == middle && rest[|middle|] == '@'
            && rest[|middle| + 1..] == version && rest[|middle|..] == "@" + version
  {
  }

  /** Splitting an identifier at its last `@` recovers name and version, because a version holds no `@`. */
  lemma IdSplits(eco: Ecosystem, name: string, version: string)
    requires PackageId(eco, name, version).Ok?
    ensures var id := PackageId(eco, name, version).value;
            && |id| > |eco.Label()|
            && BeforeLastAt(AfterLabel(eco, id)) == CanonicalName(eco, name)
            && AfterLabel(eco, id)[|CanonicalName(eco, name)|..] == "@" + version
  {
    var canonical := CanonicalName(eco, name);
    JoinedParts(eco.Label(), canonical, version);
    var rest := canonical + "@" + version;
    VersionHasNoAt(rest, |canonical|, version);
    LastAtIsFound(rest, |canonical|);
  }

  lemma LabelIsVisible(eco: Ecosystem, name: string, version: string)
    requires PackageId(eco, name, version).Ok?
    ensures PackageId(eco, name, version).value[0] == eco.Label()[0]
  {
  }

  /**
    * Two packages share an identifier exactly when they agree, up to letter case and runs of separators in the names of
    * PyPI packages.
    */
  lemma IdsAreInjective(e1: Ecosystem, n1: string, v1: string, e2: Ecosystem, n2: string, v2: string)
    requires PackageId(e1, n1, v1).Ok? && PackageId(e2, n2, v2).Ok?
    ensures PackageId(e1, n1, v1) == PackageId(e2, n2, v2) <==>
            e1 == e2 && v1 == v2 && if e1.PyPI? then Alike(n1, n2) else n1 == n2
  {
    NormalizeIffAlike(n1, n2);
    if PackageId(e1, n1, v1) == PackageId(e2, n2, v2) {
      LabelIsVisible(e1, n1, v1);
      LabelIsVisible(e2, n2, v2);
      assert e1 == e2;
      IdSplits(e1, n1, v1);
      IdSplits(e2, n2, v2);
      assert ("@" + v1)[1..] == v1 && ("@" + v2)[1..] == v2;
    }
  }
}
