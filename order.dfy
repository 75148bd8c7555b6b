/**
 * Python's ordering of `str` values (code point by code point, a proper
 * prefix first) and `sorted()` of a set of names.
 */
module Order {

  /** `a <= b` on Python strings. */
  predicate LexLe(a: string, b: string)
    decreases |a|
  {
    a == [] || (b != [] && (a[0] < b[0] || (a[0] == b[0] && LexLe(a[1..], b[1..]))))
  }

  predicate LexLt(a: string, b: string) { LexLe(a, b) && a != b }

  /** Strictly ascending: the form `sorted()` gives a sequence of distinct keys. */
  predicate StrictlySorted(xs: seq<string>)
  {
    forall i, j :: 0 <= i < j < |xs| ==> LexLt(xs[i], xs[j])
  }

  lemma {:induction false} LexReflexive(a: string)
    ensures LexLe(a, a)
    decreases |a|
  {
    if a != [] { LexReflexive(a[1..]); }
  }

  lemma {:induction false} LexAntisymmetric(a: string, b: string)
    requires LexLe(a, b) && LexLe(b, a)
    ensures a == b
    decreases |a|
  {
    if a != [] && b != [] { LexAntisymmetric(a[1..], b[1..]); }
  }

  lemma {:induction false} LexTotal(a: string, b: string)
    ensures LexLe(a, b) || LexLe(b, a)
    decreases |a|
  {
    if a != [] && b != [] && a[0] == b[0] { LexTotal(a[1..], b[1..]); }
  }

  lemma {:induction false} LexTransitive(a: string, b: string, c: string)
    requires LexLe(a, b) && LexLe(b, c)
    ensures LexLe(a, c)
    decreases |a|
  {
    if a != [] && b != [] && c != [] && a[0] == b[0] && b[0] == c[0] {
      LexTransitive(a[1..], b[1..], c[1..]);
    }
  }

  /** `m` is the least element of `s`. */
  predicate IsLeast(m: string, s: set<string>)
  {
    m in s && forall y :: y in s ==> LexLe(m, y)
  }

  lemma {:induction false} LeastExists(s: set<string>)
    requires s != {}
    ensures exists m :: IsLeast(m, s)
    decreases |s|
  {
    var x :| x in s;
    if s - {x} == {} {
      assert s == {x};
      LexReflexive(x);
      assert IsLeast(x, s);
    } else {
      LeastExists(s - {x});
      var m :| IsLeast(m, s - {x});
      LexTotal(m, x);
      if LexLe(m, x) {
        assert IsLeast(m, s);
      } else {
        assert IsLeast(x, s) by {
          forall y | y in s ensures LexLe(x, y) {
            if y == x { LexReflexive(x); } else { LexTransitive(x, m, y); }
          }
        }
      }
    }
  }

  lemma LeastUnique(s: set<string>)
    ensures forall a, b :: IsLeast(a, s) && IsLeast(b, s) ==> a == b
  {
    forall a, b | IsLeast(a, s) && IsLeast(b, s) ensures a == b { LexAntisymmetric(a, b); }
  }

  /** `sorted(s)` for a set of distinct names. */
  function SortedOf(s: set<string>): (r: seq<string>)
    ensures StrictlySorted(r)
    ensures |r| == |s|
    ensures forall x :: x in r <==> x in s
    decreases |s|
  {
    if s == {} then []
    else
      LeastExists(s);
      LeastUnique(s);
      var m :| IsLeast(m, s);
      var rest := SortedOf(s - {m});
      LeastFirst(m, rest, s);
      [m] + rest
  }

  /** The least element, then the others in order, is in order. */
  lemma LeastFirst(m: string, rest: seq<string>, s: set<string>)
    requires IsLeast(m, s) && StrictlySorted(rest)
    requires forall x :: x in rest <==> x in s - {m}
    ensures StrictlySorted([m] + rest)
    ensures forall x :: x in [m] + rest <==> x in s
  {
    var r := [m] + rest;
    forall i, j | 0 <= i < j < |r| ensures LexLt(r[i], r[j]) {
      if i == 0 {
        assert r[j] == rest[j - 1] && rest[j - 1] in rest;
      } else {
        assert r[i] == rest[i - 1] && r[j] == rest[j - 1];
      }
    }
  }

  /** The first element of a strictly sorted sequence is the least of its elements. */
  lemma HeadIsLeast(xs: seq<string>, s: set<string>)
    requires xs != [] && StrictlySorted(xs)
    requires forall x :: x in xs <==> x in s
    ensures IsLeast(xs[0], s)
  {
    forall y | y in s ensures LexLe(xs[0], y) {
      var j :| 0 <= j < |xs| && xs[j] == y;
      if j == 0 { LexReflexive(y); }
    }
  }

  /** `SortedOf` takes the least element first, then sorts the rest. */
  lemma SortedOfStep(s: set<string>)
    requires s != {}
    ensures var r := SortedOf(s); r != [] && IsLeast(r[0], s) && r == [r[0]] + SortedOf(s - {r[0]})
  {
    var r := SortedOf(s);
    LeastExists(s);
    LeastUnique(s);
    HeadIsLeast(r, s);
  }

  /** Dropping the head of a strictly sorted sequence drops the head from its elements. */
  lemma TailElements(xs: seq<string>, s: set<string>)
    requires xs != [] && StrictlySorted(xs)
    requires forall x :: x in xs <==> x in s
    ensures StrictlySorted(xs[1..])
    ensures forall x :: x in xs[1..] <==> x in s - {xs[0]}
  {
    var tail := xs[1..];
    forall x ensures x in tail <==> x in s - {xs[0]} {
      if x in tail {
        var j :| 0 <= j < |tail| && tail[j] == x;
        assert LexLt(xs[0], xs[j + 1]);
      }
      if x in s - {xs[0]} {
        assert x in xs;
        var j :| 0 <= j < |xs| && xs[j] == x;
        assert j != 0;
        assert tail[j - 1] == x;
      }
    }
  }

  /** A strictly sorted sequence is determined by its elements: it is `SortedOf` of them. */
  lemma {:induction false} SortedUnique(xs: seq<string>, s: set<string>)
    requires StrictlySorted(xs)
    requires forall x :: x in xs <==> x in s
    ensures xs == SortedOf(s)
    decreases |xs|
  {
    if xs == [] {
      assert forall x :: x !in s;
    } else {
      var m := xs[0];
      assert m in s;
      HeadIsLeast(xs, s);
      SortedOfStep(s);
      var r := SortedOf(s);
      LeastUnique(s);
      assert r[0] == m;
      TailElements(xs, s);
      SortedUnique(xs[1..], s - {m});
      ConsEqual(xs, r, m, SortedOf(s - {m}));
    }
  }

  lemma ConsEqual(xs: seq<string>, r: seq<string>, m: string, rest: seq<string>)
    requires xs != [] && xs[0] == m && xs[1..] == rest
    requires r != [] && r[0] == m && r == [r[0]] + rest
    ensures xs == r
  {
    assert xs == [xs[0]] + xs[1..];
  }
}
