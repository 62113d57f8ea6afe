/**
 * Python's ordering of `str` values (code point by code point, a proper prefix first) and
 * `sorted()` over the keys of a dict.
 */
module PySort {

  /** `a < b` on Python strings. */
  predicate Less(a: string, b: string)
    decreases |a|
  {
    if a == [] then b != []
    else b != [] && (a[0] < b[0] || (a[0] == b[0] && Less(a[1..], b[1..])))
  }

  lemma {:induction false} LessIrreflexive(a: string)
    ensures !Less(a, a)
    decreases |a|
  {
    if a != [] {
      LessIrreflexive(a[1..]);
    }
  }

  lemma {:induction false} LessTransitive(a: string, b: string, c: string)
    requires Less(a, b) && Less(b, c)
    ensures Less(a, c)
    decreases |a|
  {
    if a != [] && a[0] == b[0] && b[0] == c[0] {
      LessTransitive(a[1..], b[1..], c[1..]);
    }
  }

  lemma {:induction false} LessTotal(a: string, b: string)
    requires a != b
    ensures Less(a, b) || Less(b, a)
    decreases |a|
  {
    if a != [] && b != [] && a[0] == b[0] {
      assert a == [a[0]] + a[1..] && b == [b[0]] + b[1..];
      LessTotal(a[1..], b[1..]);
    }
  }

  lemma LessAsymmetric(a: string, b: string)
    requires Less(a, b)
    ensures !Less(b, a)
  {
    if Less(b, a) {
      LessTransitive(a, b, a);
      LessIrreflexive(a);
    }
  }

  /** Every element is below every later one, so the sequence is also free of duplicates. */
  predicate StrictlySorted(s: seq<string>) {
    forall i, j :: 0 <= i < j < |s| ==> Less(s[i], s[j])
  }

  /** The least element of a non-empty set of strings. */
  method MinOf(xs: set<string>) returns (m: string)
    requires xs != {}
    ensures m in xs
    ensures forall y :: y in xs && y != m ==> Less(m, y)
  {
    m :| m in xs;
    var rest := xs - {m};
    while rest != {}
      invariant rest <= xs && m in xs && m !in rest
      invariant forall y :: y in xs - rest && y != m ==> Less(m, y)
      decreases rest
    {
      var x :| x in rest;
      if Less(x, m) {
        forall y | y in xs - rest && y != x
          ensures Less(x, y)
        {
          if y != m {
            LessTransitive(x, m, y);
          }
        }
        m := x;
      } else {
        LessTotal(x, m);
      }
      rest := rest - {x};
    }
  }

  /** `sorted(keys)`: the keys in increasing order, each once. */
  method SortedKeys(keys: set<string>) returns (s: seq<string>)
    ensures StrictlySorted(s)
    ensures forall x :: x in s <==> x in keys
    ensures |s| == |keys|
  {
    s := [];
    var rest := keys;
    while rest != {}
      invariant rest <= keys
      invariant StrictlySorted(s)
      invariant forall x :: x in s <==> x in keys - rest
      invariant forall i, y :: 0 <= i < |s| && y in rest ==> Less(s[i], y)
      invariant |s| + |rest| == |keys|
      decreases rest
    {
      var m := MinOf(rest);
      forall i, y | 0 <= i < |s| && y in rest - {m}
        ensures Less(s[i], y)
      {
        LessTransitive(s[i], m, y);
      }
      s := s + [m];
      rest := rest - {m};
    }
  }

  /** A strictly sorted sequence is fixed by its elements: `sorted()` has one possible outcome. */
  lemma {:induction false} SortedUnique(s: seq<string>, t: seq<string>)
    requires StrictlySorted(s) && StrictlySorted(t)
    requires |s| == |t| && forall x :: x in s <==> x in t
    ensures s == t
    decreases |s|
  {
    if s != [] && t != [] {
      if s[0] != t[0] {
        assert s[0] in t && t[0] in s;
        var i :| 0 <= i < |t| && t[i] == s[0];
        var j :| 0 <= j < |s| && s[j] == t[0];
        assert Less(t[0], s[0]) by {
          assert 0 < i;
        }
        assert Less(s[0], t[0]) by {
          assert 0 < j;
        }
        LessAsymmetric(s[0], t[0]);
      }
      assert s == [s[0]] + s[1..] && t == [t[0]] + t[1..];
      forall x ensures x in s[1..] <==> x in t[1..] {
        if x in s[1..] {
          var k :| 0 <= k < |s[1..]| && s[1..][k] == x;
          assert Less(s[0], s[k + 1]);
          LessIrreflexive(s[0]);
          assert x in t && x != t[0];
        }
        if x in t[1..] {
          var k :| 0 <= k < |t[1..]| && t[1..][k] == x;
          assert Less(t[0], t[k + 1]);
          LessIrreflexive(t[0]);
          assert x in s && x != s[0];
        }
      }
      SortedUnique(s[1..], t[1..]);
    }
  }

  /** The first element of a strictly sorted sequence is its least. */
  lemma SortedFirstIsLeast(s: seq<string>, x: string)
    requires StrictlySorted(s) && x in s && x != s[0]
    ensures Less(s[0], x)
  {
    var k :| 0 <= k < |s| && s[k] == x;
  }
}
