/**
 * Python's ordering of `str` values (code point by code point, a proper
 * prefix sorts first), the sortedness it induces, and `sorted` on a list of
 * strings.
 */
module Strings {

  /** `a < b` on Python strings. */
  predicate Below(a: string, b: string)
  {
    if |a| == 0 then |b| > 0
    else if |b| == 0 then false
    else if a[0] != b[0] then a[0] < b[0]
    else Below(a[1..], b[1..])
  }

  /** `a <= b` on Python strings. */
  predicate AtMost(a: string, b: string)
  {
    !Below(b, a)
  }

  lemma {:induction false} BelowIrreflexive(a: string)
    ensures !Below(a, a)
  {
    if |a| > 0 {
      BelowIrreflexive(a[1..]);
    }
  }

  lemma {:induction false} BelowTransitive(a: string, b: string, c: string)
    requires Below(a, b) && Below(b, c)
    ensures Below(a, c)
  {
    if |a| > 0 && |b| > 0 && |c| > 0 && a[0] == b[0] == c[0] {
      BelowTransitive(a[1..], b[1..], c[1..]);
    }
  }

  /** Two different strings are always ordered one way or the other. */
  lemma {:induction false} BelowTotal(a: string, b: string)
    ensures a == b || Below(a, b) || Below(b, a)
  {
    if |a| > 0 && |b| > 0 && a[0] == b[0] {
      BelowTotal(a[1..], b[1..]);
      if a[1..] == b[1..] {
        assert a == [a[0]] + a[1..] && b == [b[0]] + b[1..];
      }
    }
  }

  lemma {:induction false} BelowAsymmetric(a: string, b: string)
    requires Below(a, b)
    ensures !Below(b, a)
  {
    if |a| > 0 && |b| > 0 && a[0] == b[0] {
      BelowAsymmetric(a[1..], b[1..]);
    }
  }

  /** `<=` is a total order: transitive and antisymmetric. */
  lemma AtMostTransitive(a: string, b: string, c: string)
    requires AtMost(a, b) && AtMost(b, c)
    ensures AtMost(a, c)
  {
    if Below(c, a) {
      BelowTotal(a, b);
      BelowTotal(b, c);
      if a != b && b != c {
        BelowTransitive(a, b, c);
        BelowAsymmetric(a, c);
      }
    }
  }

  lemma AtMostAntisymmetric(a: string, b: string)
    requires AtMost(a, b) && AtMost(b, a)
    ensures a == b
  {
    BelowTotal(a, b);
  }

  /** For two non-empty strings in order, their first characters are in order. */
  lemma {:induction false} AtMostFirstChar(a: string, b: string)
    requires a != [] && b != [] && AtMost(a, b)
    ensures a[0] <= b[0]
  {
  }

  /** Ascending as `sorted` leaves a list: no later element is below an earlier one. */
  ghost predicate Sorted(s: seq<string>)
  {
    forall i, j :: 0 <= i < j < |s| ==> AtMost(s[i], s[j])
  }

  /** Places `x` in front of the first element that is not below it. */
  function Insert(x: string, s: seq<string>): (r: seq<string>)
    ensures multiset(r) == multiset(s) + multiset{x}
    ensures forall y :: y in r <==> y == x || y in s
    ensures Sorted(s) ==> Sorted(r)
  {
    if s == [] then [x]
    else if Below(s[0], x) then
      var tail := Insert(x, s[1..]);
      assert s == [s[0]] + s[1..];
      assert multiset([s[0]] + tail) == multiset{s[0]} + multiset(tail);
      assert multiset(s) == multiset{s[0]} + multiset(s[1..]);
      assert Sorted(s) ==> Sorted([s[0]] + tail) by {
        if Sorted(s) {
          SortedTail(s);
          forall y | y in tail ensures AtMost(s[0], y) {
            if y == x {
              BelowAsymmetric(s[0], x);
            } else {
              HeadIsLeast(s, y);
            }
          }
          ConsSorted(s[0], tail);
        }
      }
      [s[0]] + tail
    else
      assert Sorted(s) ==> Sorted([x] + s) by {
        if Sorted(s) {
          forall y | y in s ensures AtMost(x, y) {
            HeadIsLeast(s, y);
            AtMostTransitive(x, s[0], y);
          }
          ConsSorted(x, s);
        }
      }
      [x] + s
  }

  /** A sorted list stays sorted behind an element at most each of its elements. */
  lemma ConsSorted(h: string, t: seq<string>)
    requires Sorted(t) && forall y :: y in t ==> AtMost(h, y)
    ensures Sorted([h] + t)
  {
    forall i, j | 0 <= i < j < |t| + 1 ensures AtMost(([h] + t)[i], ([h] + t)[j]) {
      assert ([h] + t)[j] == t[j - 1];
      if i > 0 {
        assert ([h] + t)[i] == t[i - 1];
      }
    }
  }

  /** Python's `sorted` on a list of strings. */
  function Sort(s: seq<string>): (r: seq<string>)
    ensures Sorted(r)
    ensures multiset(r) == multiset(s)
  {
    if s == [] then []
    else
      assert s == [s[0]] + s[1..];
      Insert(s[0], Sort(s[1..]))
  }

  lemma SortedTail(a: seq<string>)
    requires Sorted(a) && a != []
    ensures Sorted(a[1..])
  {
    forall i, j | 0 <= i < j < |a| - 1 ensures AtMost(a[1..][i], a[1..][j]) {
      assert a[1..][i] == a[i + 1] && a[1..][j] == a[j + 1];
    }
  }

  lemma SameTail(a: seq<string>, b: seq<string>)
    requires a != [] && b != [] && a[0] == b[0] && multiset(a) == multiset(b)
    ensures multiset(a[1..]) == multiset(b[1..])
  {
    assert a == [a[0]] + a[1..];
    assert b == [b[0]] + b[1..];
    assert multiset(a) == multiset{a[0]} + multiset(a[1..]);
    assert multiset(b) == multiset{a[0]} + multiset(b[1..]);
    forall y ensures multiset(a[1..])[y] == multiset(b[1..])[y] {
      assert multiset(a)[y] == multiset{a[0]}[y] + multiset(a[1..])[y];
      assert multiset(b)[y] == multiset{a[0]}[y] + multiset(b[1..])[y];
    }
  }

  /** The head of a sorted list is at most every element of it. */
  lemma HeadIsLeast(a: seq<string>, y: string)
    requires Sorted(a) && y in a
    ensures AtMost(a[0], y)
  {
    var i :| 0 <= i < |a| && a[i] == y;
    if i == 0 {
      BelowIrreflexive(y);
    }
  }

  /**
   * A list has one sorted arrangement: two sorted lists holding the same
   * elements are equal.  So what `sorted` returns does not depend on the
   * order in which the elements were handed to it.
   */
  lemma {:induction false} SortedUnique(a: seq<string>, b: seq<string>)
    requires Sorted(a) && Sorted(b) && multiset(a) == multiset(b)
    ensures a == b
  {
    if a == [] {
      assert |multiset(b)| == 0;
    } else {
      assert a[0] in multiset(b) && b[0] in multiset(a);
      HeadIsLeast(b, a[0]);
      HeadIsLeast(a, b[0]);
      AtMostAntisymmetric(a[0], b[0]);
      var a', b' := a[1..], b[1..];
      assert a == [a[0]] + a' && b == [b[0]] + b';
      SameTail(a, b);
      SortedTail(a);
      SortedTail(b);
      SortedUnique(a', b');
    }
  }
}
