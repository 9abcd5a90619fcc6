/**
 * Python's ordering of strings (code point by code point, a proper prefix first) and
 * `sorted(s)` of a set of strings, which the index builders use to turn sets into lists.
 */
module Order {

  /** `a <= b` on Python strings. */
  predicate LexLe(a: string, b: string)
    decreases |a|
  {
    a == [] || (b != [] && (a[0] < b[0] || (a[0] == b[0] && LexLe(a[1..], b[1..]))))
  }

  /** `a < b` on Python strings. */
  predicate LexLt(a: string, b: string) {
    LexLe(a, b) && a != b
  }

  lemma {:induction false} LexLeTotal(a: string, b: string)
    ensures LexLe(a, b) || LexLe(b, a)
    decreases |a|
  {
    if a != [] && b != [] && a[0] == b[0] {
      LexLeTotal(a[1..], b[1..]);
    }
  }

  lemma {:induction false} LexLeAntisymmetric(a: string, b: string)
    requires LexLe(a, b) && LexLe(b, a)
    ensures a == b
    decreases |a|
  {
    if a != [] {
      LexLeAntisymmetric(a[1..], b[1..]);
      assert a == [a[0]] + a[1..] && b == [b[0]] + b[1..];
    }
  }

  lemma {:induction false} LexLeTransitive(a: string, b: string, c: string)
    requires LexLe(a, b) && LexLe(b, c)
    ensures LexLe(a, c)
    decreases |a|
  {
    if a != [] && b != [] && c != [] && a[0] == b[0] && b[0] == c[0] {
      LexLeTransitive(a[1..], b[1..], c[1..]);
    }
  }

  /** Strictly ascending: each element below the next, so sorted and without repeats. */
  predicate StrictlySorted(s: seq<string>) {
    |s| < 2 || (LexLt(s[0], s[1]) && StrictlySorted(s[1..]))
  }

  /** In a strictly ascending list every element is below every later one. */
  lemma {:induction false} StrictlySortedPairwise(s: seq<string>, i: int, j: int)
    requires StrictlySorted(s) && 0 <= i < j < |s|
    ensures LexLt(s[i], s[j])
    decreases j
  {
    if i == 0 && j == 1 {
    } else if i > 0 {
      StrictlySortedPairwise(s[1..], i - 1, j - 1);
    } else {
      StrictlySortedPairwise(s[1..], 0, j - 1);
      LexLeTransitive(s[0], s[1], s[j]);
      if s[0] == s[j] {
        LexLeAntisymmetric(s[0], s[1]);
      }
    }
  }

  /** A strictly ascending list is determined by its elements. */
  lemma {:induction false} StrictlySortedUnique(a: seq<string>, b: seq<string>)
    requires StrictlySorted(a) && StrictlySorted(b)
    requires forall x :: x in a <==> x in b
    ensures a == b
    decreases |a|
  {
    assert a != [] ==> a[0] in b;
    assert b != [] ==> b[0] in a;
    if a != [] && b != [] {
      forall x | x in a[1..] ensures LexLt(a[0], x) {
        var j :| 1 <= j < |a| && a[j] == x;
        StrictlySortedPairwise(a, 0, j);
      }
      forall x | x in b[1..] ensures LexLt(b[0], x) {
        var j :| 1 <= j < |b| && b[j] == x;
        StrictlySortedPairwise(b, 0, j);
      }
      assert a[0] in b && b[0] in a;
      assert a == [a[0]] + a[1..] && b == [b[0]] + b[1..];
      if a[0] != b[0] {
        assert LexLt(b[0], a[0]) && LexLt(a[0], b[0]);
        LexLeAntisymmetric(a[0], b[0]);
      }
      forall x ensures x in a[1..] <==> x in b[1..] {
        if x in a[1..] {
          assert x in b && x != b[0];
        }
        if x in b[1..] {
          assert x in a && x != a[0];
        }
      }
      StrictlySortedUnique(a[1..], b[1..]);
    }
  }

  predicate IsLeast(m: string, s: set<string>) {
    m in s && forall y :: y in s ==> LexLe(m, y)
  }

  lemma {:induction false} LeastExists(s: set<string>)
    requires s != {}
    ensures exists m :: IsLeast(m, s)
    decreases |s|
  {
    var x :| x in s;
    if s == {x} {
      assert LexLe(x, x) by { LexLeTotal(x, x); }
      assert IsLeast(x, s);
    } else {
      LeastExists(s - {x});
      var m :| IsLeast(m, s - {x});
      LexLeTotal(m, x);
      if LexLe(m, x) {
        assert IsLeast(m, s);
      } else {
        forall y | y in s ensures LexLe(x, y) {
          if y == x {
            LexLeTotal(x, x);
          } else {
            LexLeTransitive(x, m, y);
          }
        }
        assert IsLeast(x, s);
      }
    }
  }

  lemma LeastIsUnique(s: set<string>)
    ensures forall m, n :: IsLeast(m, s) && IsLeast(n, s) ==> m == n
  {
    forall m, n | IsLeast(m, s) && IsLeast(n, s) ensures m == n {
      LexLeAntisymmetric(m, n);
    }
  }

  /** `sorted(s)` for a set of strings: its elements, each once, in ascending order. */
  function SortedOf(s: set<string>): (r: seq<string>)
    ensures forall x :: x in r <==> x in s
    ensures |r| == |s|
    ensures StrictlySorted(r)
    decreases |s|
  {
    if s == {} then []
    else
      LeastExists(s);
      LeastIsUnique(s);
      var m :| IsLeast(m, s);
      var rest := SortedOf(s - {m});
      assert rest != [] ==> rest[0] in s - {m} && LexLt(m, rest[0]);
      assert ([m] + rest)[1..] == rest;
      [m] + rest
  }
}
