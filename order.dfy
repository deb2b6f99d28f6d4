/** The order JavaScript's default `Array.prototype.sort` uses for strings:
    lexicographic on character codes, a proper prefix sorting first. */
module StringOrder {

  /** `a` sorts no later than `b`. */
  predicate Le(a: string, b: string)
  {
    if a == [] then true
    else if b == [] then false
    else if a[0] != b[0] then a[0] < b[0]
    else Le(a[1..], b[1..])
  }

  lemma {:induction false} LeRefl(a: string)
    ensures Le(a, a)
  {
    if a != [] { LeRefl(a[1..]); }
  }

  lemma {:induction false} LeTotal(a: string, b: string)
    ensures Le(a, b) || Le(b, a)
  {
    if a != [] && b != [] && a[0] == b[0] { LeTotal(a[1..], b[1..]); }
  }

  lemma {:induction false} LeAntisymmetric(a: string, b: string)
    requires Le(a, b) && Le(b, a)
    ensures a == b
  {
    if a != [] && b != [] {
      LeAntisymmetric(a[1..], b[1..]);
      assert a == [a[0]] + a[1..] && b == [b[0]] + b[1..];
    }
  }

  lemma {:induction false} LeTransitive(a: string, b: string, c: string)
    requires Le(a, b) && Le(b, c)
    ensures Le(a, c)
  {
    if a != [] && b != [] && c != [] && a[0] == b[0] == c[0] {
      LeTransitive(a[1..], b[1..], c[1..]);
    }
  }

  /** Ascending in that order. */
  predicate Sorted(s: seq<string>)
  {
    forall i, j :: 0 <= i < j < |s| ==> Le(s[i], s[j])
  }

  /** A string no later than every element of a sorted list can go in front of it. */
  lemma ConsSorted(y: string, s: seq<string>)
    requires Sorted(s) && forall j :: 0 <= j < |s| ==> Le(y, s[j])
    ensures Sorted([y] + s)
  {
    var r := [y] + s;
    forall p, q | 0 <= p < q < |r| ensures Le(r[p], r[q]) {
      if p > 0 { assert r[p] == s[p - 1] && r[q] == s[q - 1]; } else { assert r[q] == s[q - 1]; }
    }
  }

  /** A lower bound of every element is a lower bound of every rearrangement. */
  lemma LowerBoundOfPermutation(y: string, r: seq<string>, t: seq<string>)
    requires multiset(r) == multiset(t)
    requires forall j :: 0 <= j < |t| ==> Le(y, t[j])
    ensures forall j :: 0 <= j < |r| ==> Le(y, r[j])
  {
    forall j | 0 <= j < |r| ensures Le(y, r[j]) {
      assert r[j] in multiset(t);
      var k :| 0 <= k < |t| && t[k] == r[j];
    }
  }

  /** Inserts `x` before the first element it sorts no later than. */
  function Insert(x: string, s: seq<string>): (r: seq<string>)
    requires Sorted(s)
    ensures Sorted(r)
    ensures multiset(r) == multiset(s) + multiset{x}
  {
    if s == [] then [x]
    else if Le(x, s[0]) then
      assert forall j :: 0 <= j < |s| ==> Le(x, s[j]) by {
        forall j | 0 < j < |s| ensures Le(x, s[j]) { LeTransitive(x, s[0], s[j]); }
      }
      ConsSorted(x, s);
      [x] + s
    else
      LeTotal(x, s[0]);
      var rest := Insert(x, s[1..]);
      assert s == [s[0]] + s[1..];
      var t := s[1..] + [x];
      assert multiset(rest) == multiset(t);
      assert forall j :: 0 <= j < |t| ==> Le(s[0], t[j]) by {
        forall j | 0 <= j < |t| ensures Le(s[0], t[j]) {
          if j < |s| - 1 { assert t[j] == s[j + 1]; }
        }
      }
      LowerBoundOfPermutation(s[0], rest, t);
      ConsSorted(s[0], rest);
      [s[0]] + rest
  }

  /** The list `sort()` produces: a sorted permutation of `s`. */
  function SortStrings(s: seq<string>): (r: seq<string>)
    ensures Sorted(r)
    ensures multiset(r) == multiset(s)
  {
    if s == [] then []
    else
      assert s == [s[0]] + s[1..];
      Insert(s[0], SortStrings(s[1..]))
  }

  /** There is only one sorted arrangement of a given multiset of strings. */
  lemma {:induction false} SortedUnique(a: seq<string>, b: seq<string>)
    requires Sorted(a) && Sorted(b)
    requires multiset(a) == multiset(b)
    ensures a == b
  {
    if a != [] {
      SortedSameHead(a, b);
      MultisetTail(a);
      MultisetTail(b);
      SortedUnique(a[1..], b[1..]);
      assert a == [a[0]] + a[1..] && b == [b[0]] + b[1..];
    }
  }

  /** The tail holds the elements of the list minus one copy of its head. */
  lemma MultisetTail(a: seq<string>)
    requires a != []
    ensures multiset(a[1..]) == multiset(a) - multiset{a[0]}
  {
    assert a == [a[0]] + a[1..];
  }

  /** Two sorted arrangements of the same non-empty multiset start alike. */
  lemma SortedSameHead(a: seq<string>, b: seq<string>)
    requires Sorted(a) && Sorted(b)
    requires multiset(a) == multiset(b) && a != []
    ensures b != [] && a[0] == b[0]
  {
    assert a[0] in multiset(b) && b != [];
    assert b[0] in multiset(a);
    var i :| 0 <= i < |b| && b[i] == a[0];
    var j :| 0 <= j < |a| && a[j] == b[0];
    assert Le(b[0], a[0]) by { if i > 0 { assert Le(b[0], b[i]); } else { LeRefl(b[0]); } }
    assert Le(a[0], b[0]) by { if j > 0 { assert Le(a[0], a[j]); } else { LeRefl(a[0]); } }
    LeAntisymmetric(a[0], b[0]);
  }

  /** Anything sorted with the same elements as `s` is `SortStrings(s)`. */
  lemma SortIsCanonical(s: seq<string>, r: seq<string>)
    requires Sorted(r) && multiset(r) == multiset(s)
    ensures r == SortStrings(s)
  {
    SortedUnique(r, SortStrings(s));
  }
}
