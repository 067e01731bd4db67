/** The order of strings, byte by byte, as `sort.Strings` uses it. */
module TextOrder {

  predicate LexLe(a: string, b: string) {
    a == "" || (b != "" && (a[0] < b[0] || (a[0] == b[0] && LexLe(a[1..], b[1..]))))
  }

  lemma {:induction false} LexTotal(a: string, b: string)
    ensures LexLe(a, b) || LexLe(b, a)
    ensures LexLe(a, b) && LexLe(b, a) ==> a == b
  {
    if a != "" && b != "" && a[0] == b[0] {
      LexTotal(a[1..], b[1..]);
      assert a == [a[0]] + a[1..] && b == [b[0]] + b[1..];
    }
  }

  lemma {:induction false} LexTransitive(a: string, b: string, c: string)
    requires LexLe(a, b) && LexLe(b, c)
    ensures LexLe(a, c)
  {
    if a != "" && a[0] == b[0] && b[0] == c[0] {
      LexTransitive(a[1..], b[1..], c[1..]);
    }
  }

  ghost predicate Least(m: string, s: set<string>) {
    m in s && forall x | x in s :: LexLe(m, x)
  }

  lemma {:induction false} LeastExists(s: set<string>) returns (m: string)
    requires s != {}
    ensures Least(m, s)
  {
    m :| m in s;
    var rest := s - {m};
    LexTotal(m, m);
    if rest != {} {
      var n := LeastExists(rest);
      LexTotal(m, n);
      if !LexLe(m, n) {
        m := n;
      } else {
        forall x | x in rest ensures LexLe(m, x) { LexTransitive(m, n, x); }
      }
    }
    assert forall x | x in s :: x in rest || LexLe(m, x);
  }

  /** Strictly rising, so without repetition. */
  ghost predicate Rising(s: seq<string>) {
    forall i, j | 0 <= i < j < |s| :: s[i] != s[j] && LexLe(s[i], s[j])
  }

  lemma SameEmptiness(s: seq<string>, t: seq<string>)
    requires forall x :: x in s <==> x in t
    ensures s == [] <==> t == []
  {
    assert s != [] ==> s[0] in s;
    assert t != [] ==> t[0] in t;
  }

  /** A set of strings has one rising listing only. */
  lemma {:induction false} RisingUnique(s: seq<string>, t: seq<string>)
    requires Rising(s) && Rising(t) && forall x :: x in s <==> x in t
    ensures s == t
  {
    SameEmptiness(s, t);
    if s != [] {
      assert s[0] in t;
      assert t[0] in s;
      var i :| 0 <= i < |s| && s[i] == t[0];
      var j :| 0 <= j < |t| && t[j] == s[0];
      LexTotal(s[0], t[0]);
      assert s[0] == t[0];
      forall x ensures x in s[1..] <==> x in t[1..] {
        SplitHead(s, x);
        SplitHead(t, x);
      }
      RisingUnique(s[1..], t[1..]);
      assert s == [s[0]] + s[1..] && t == [t[0]] + t[1..];
    }
  }

  lemma SplitHead(s: seq<string>, x: string)
    requires s != [] && Rising(s)
    ensures x in s[1..] <==> x in s && x != s[0]
  {
    if x in s && x != s[0] {
      var i :| 0 <= i < |s| && s[i] == x;
      assert s[1..][i - 1] == x;
    }
  }

  lemma {:induction false} RisingSize(s: seq<string>, keys: set<string>)
    requires Rising(s) && forall x :: x in s <==> x in keys
    ensures |s| == |keys|
  {
    if s == [] {
      assert keys == {};
    } else {
      forall x ensures x in s[1..] <==> x in keys - {s[0]} { SplitHead(s, x); }
      assert s[0] in keys;
      RisingSize(s[1..], keys - {s[0]});
    }
  }

  /** `sort.Strings` over the keys of a Go map: the least one first. */
  method SortStrings(keys: set<string>) returns (names: seq<string>)
    ensures Rising(names) && forall x :: x in names <==> x in keys
  {
    names := [];
    var rest := keys;
    while rest != {}
      invariant rest <= keys && Rising(names)
      invariant forall x :: x in names <==> x in keys && x !in rest
      invariant forall i, x | 0 <= i < |names| && x in rest :: LexLe(names[i], x)
      decreases rest
    {
      var least := LeastExists(rest);
      var next :| next in rest && forall x | x in rest :: LexLe(next, x);
      assert next !in names;
      names := names + [next];
      rest := rest - {next};
    }
  }

  /** A prefix comes first. */
  lemma {:induction false} PrefixFirst(a: string, b: string)
    ensures LexLe(a, a + b)
    ensures b != "" ==> !LexLe(a + b, a)
  {
    if a == "" {
      assert a + b == b;
    } else {
      PrefixFirst(a[1..], b);
      assert (a + b)[1..] == a[1..] + b;
    }
  }

  /** Otherwise the first difference decides. */
  lemma {:induction false} FirstDifferenceDecides(p: string, x: char, a: string, y: char, b: string)
    requires x != y
    ensures LexLe(p + [x] + a, p + [y] + b) <==> x < y
  {
    if p == "" {
      assert p + [x] + a == [x] + a && p + [y] + b == [y] + b;
    } else {
      FirstDifferenceDecides(p[1..], x, a, y, b);
      assert (p + [x] + a)[1..] == p[1..] + [x] + a && (p + [y] + b)[1..] == p[1..] + [y] + b;
    }
  }
}
