/** Strings in the order Python's `sorted` and `min` use: lexicographic by code point. */
module Text {

  predicate Less(a: string, b: string) {
    b != [] && (a == [] || a[0] < b[0] || (a[0] == b[0] && Less(a[1..], b[1..])))
  }

  predicate AtMost(a: string, b: string) {
    a == b || Less(a, b)
  }

  lemma {:induction false} LessIsTransitive(a: string, b: string, c: string)
    requires Less(a, b) && Less(b, c)
    ensures Less(a, c)
  {
    if a != [] && a[0] == b[0] && b[0] == c[0] {
      LessIsTransitive(a[1..], b[1..], c[1..]);
    }
  }

  lemma {:induction false} LessIsTotal(a: string, b: string)
    ensures a == b || Less(a, b) || Less(b, a)
    ensures !(Less(a, b) && Less(b, a))
    ensures !Less(a, a)
  {
    if a != [] {
      LessIsTotal(a[1..], a[1..]);
    }
    if a != [] && b != [] && a[0] == b[0] {
      LessIsTotal(a[1..], b[1..]);
      assert a == [a[0]] + a[1..] && b == [b[0]] + b[1..];
    }
  }

  predicate IsLeast(m: string, s: set<string>) {
    m in s && forall x :: x in s ==> AtMost(m, x)
  }

  lemma {:induction false} LeastExists(s: set<string>)
    requires s != {}
    ensures exists m :: IsLeast(m, s)
  {
    var x :| x in s;
    if s == {x} {
      assert IsLeast(x, s);
    } else {
      var rest := s - {x};
      LeastExists(rest);
      var m :| IsLeast(m, rest);
      LessIsTotal(x, m);
      if Less(x, m) {
        forall y | y in s ensures AtMost(x, y) {
          if y != x && y != m {
            assert y in rest && AtMost(m, y);
            LessIsTransitive(x, m, y);
          }
        }
        assert IsLeast(x, s);
      } else {
        assert IsLeast(m, s);
      }
    }
  }

  lemma LeastIsUnique(m: string, n: string, s: set<string>)
    requires IsLeast(m, s) && IsLeast(n, s)
    ensures m == n
  {
    LessIsTotal(m, n);
  }

  /** `min(s)`. */
  function Min(s: set<string>): (m: string)
    requires s != {}
    ensures IsLeast(m, s)
  {
    LeastExists(s);
    assert forall a, b :: IsLeast(a, s) && IsLeast(b, s) ==> a == b by {
      forall a, b | IsLeast(a, s) && IsLeast(b, s) ensures a == b { LeastIsUnique(a, b, s); }
    }
    var m :| IsLeast(m, s);
    m
  }

  predicate Distinct(q: seq<string>) {
    forall i, j :: 0 <= i < j < |q| ==> q[i] != q[j]
  }

  predicate Ascending(q: seq<string>) {
    forall i, j :: 0 <= i < j < |q| ==> Less(q[i], q[j])
  }

  function Elements(q: seq<string>): set<string> {
    set x | x in q
  }

  /** `sorted(s)` for a set: every element once, in ascending order. */
  function Sorted(s: set<string>): (q: seq<string>)
    ensures Ascending(q) && Elements(q) == s
  {
    if s == {} then []
    else
      var m := Min(s);
      var rest := Sorted(s - {m});
      PrependLeast(m, rest, s);
      [m] + rest
  }

  lemma PrependLeast(m: string, rest: seq<string>, s: set<string>)
    requires IsLeast(m, s) && Ascending(rest) && Elements(rest) == s - {m}
    ensures Ascending([m] + rest) && Elements([m] + rest) == s
  {
    var q := [m] + rest;
    forall i, j | 0 <= i < j < |q| ensures Less(q[i], q[j]) {
      assert q[j] == rest[j - 1] && rest[j - 1] in Elements(rest);
      if i == 0 {
        assert q[j] in s - {m} && AtMost(m, q[j]);
      } else {
        assert q[i] == rest[i - 1];
      }
    }
    forall x | x in s ensures x in q {
      if x != m {
        assert x in Elements(rest);
        var i :| 0 <= i < |rest| && rest[i] == x;
        assert q[i + 1] == x;
      } else {
        assert q[0] == x;
      }
    }
    forall x | x in q ensures x in s {
      var i :| 0 <= i < |q| && q[i] == x;
      if i > 0 { assert x == rest[i - 1] && x in Elements(rest); }
    }
  }

  /** Ascending lists are determined by their elements. */
  lemma {:induction false} AscendingIsCanonical(p: seq<string>, q: seq<string>)
    requires Ascending(p) && Ascending(q) && Elements(p) == Elements(q)
    ensures p == q
  {
    assert p != [] ==> p[0] in Elements(p);
    assert q != [] ==> q[0] in Elements(q);
    if p != [] {
      AscendingHead(p);
      AscendingHead(q);
      LeastIsUnique(p[0], q[0], Elements(p));
      AscendingIsCanonical(p[1..], q[1..]);
      assert p == [p[0]] + p[1..] && q == [q[0]] + q[1..];
    }
  }

  lemma AscendingHead(q: seq<string>)
    requires Ascending(q) && q != []
    ensures IsLeast(q[0], Elements(q))
    ensures Ascending(q[1..]) && Elements(q[1..]) == Elements(q) - {q[0]}
  {
    LessIsTotal(q[0], q[0]);
    forall x | x in Elements(q) ensures AtMost(q[0], x) {
      var i :| 0 <= i < |q| && q[i] == x;
      assert i > 0 ==> Less(q[0], q[i]);
    }
    forall x | x in Elements(q) - {q[0]} ensures x in q[1..] {
      var i :| 0 <= i < |q| && q[i] == x;
      assert q[1..][i - 1] == x;
    }
    forall x | x in q[1..] ensures x in Elements(q) - {q[0]} {
      var i :| 0 <= i < |q[1..]| && q[1..][i] == x;
      assert Less(q[0], q[i + 1]);
    }
  }
}
