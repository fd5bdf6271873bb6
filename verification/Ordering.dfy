/**
 The standard-library algorithms the source leans on (sort, unique, lower_bound), for an order
 given as a `less` function, with the facts that make sorting a canonical form.
 */
module Ordering {
  import opened Bytes

  /** A strict weak order: what `std::sort` and `std::lower_bound` ask of a comparison. */
  ghost predicate Weak<T(!new)>(less: (T, T) -> bool) {
    && (forall a, b :: less(a, b) ==> !less(b, a))
    && (forall a, b, c :: !less(b, a) && !less(c, b) ==> !less(c, a))
  }

  /** A strict weak order that only identifies equal values. */
  ghost predicate Total<T(!new)>(less: (T, T) -> bool) {
    && Weak(less)
    && forall a, b :: !less(a, b) && !less(b, a) ==> a == b
  }

  ghost predicate Sorted<T>(s: seq<T>, less: (T, T) -> bool) {
    forall i, j | 0 <= i < j < |s| :: !less(s[j], s[i])
  }

  ghost predicate Increasing<T>(s: seq<T>, less: (T, T) -> bool) {
    forall i, j | 0 <= i < j < |s| :: less(s[i], s[j])
  }

  // ---------------------------------------------------------------- sort

  function Insert<T>(x: T, s: seq<T>, less: (T, T) -> bool): (r: seq<T>)
    ensures multiset(r) == multiset([x] + s)
  {
    if s == [] || !less(s[0], x) then
      [x] + s
    else
      assert s == [s[0]] + s[1..];
      [s[0]] + Insert(x, s[1..], less)
  }

  function Sort<T>(s: seq<T>, less: (T, T) -> bool): (r: seq<T>)
    ensures multiset(r) == multiset(s)
  {
    if s == [] then [] else
      assert s == [s[0]] + s[1..];
      Insert(s[0], Sort(s[1..], less), less)
  }

  lemma SameElements<T(!new)>(a: seq<T>, b: seq<T>)
    requires multiset(a) == multiset(b)
    ensures |a| == |b| && forall x :: x in a <==> x in b
  {
    assert |multiset(a)| == |multiset(b)|;
    forall x
      ensures x in a <==> x in b
    {
      assert x in a <==> x in multiset(a);
      assert x in b <==> x in multiset(b);
    }
  }

  lemma {:induction false} InsertSorted<T(!new)>(x: T, s: seq<T>, less: (T, T) -> bool)
    requires Weak(less) && Sorted(s, less)
    ensures Sorted(Insert(x, s, less), less)
  {
    if s != [] && less(s[0], x) {
      InsertSorted(x, s[1..], less);
      var tail := Insert(x, s[1..], less);
      SameElements(tail, [x] + s[1..]);
      forall j | 0 <= j < |tail|
        ensures !less(tail[j], s[0])
      {
        assert tail[j] in [x] + s[1..];
      }
    }
  }

  lemma {:induction false} SortSorted<T(!new)>(s: seq<T>, less: (T, T) -> bool)
    requires Weak(less)
    ensures Sorted(Sort(s, less), less)
    ensures |Sort(s, less)| == |s|
    ensures forall x :: x in Sort(s, less) <==> x in s
  {
    if s != [] {
      SortSorted(s[1..], less);
      InsertSorted(s[0], Sort(s[1..], less), less);
    }
    SameElements(Sort(s, less), s);
  }

  lemma DropFirst<T>(a: seq<T>)
    requires a != []
    ensures multiset(a[1..]) == multiset(a) - multiset{a[0]}
  {
    assert a == [a[0]] + a[1..];
  }

  lemma FirstIsLeast<T(!new)>(a: seq<T>, b: seq<T>, less: (T, T) -> bool)
    requires Total(less) && Sorted(a, less) && Sorted(b, less) && a != [] && b != []
    requires a[0] in b && b[0] in a
    ensures a[0] == b[0]
  {
  }

  /** A sorted arrangement is determined by the elements it holds. */
  lemma {:induction false} SortedIsUnique<T(!new)>(a: seq<T>, b: seq<T>, less: (T, T) -> bool)
    requires Total(less) && Sorted(a, less) && Sorted(b, less) && multiset(a) == multiset(b)
    ensures a == b
  {
    hide Total;
    SameElements(a, b);
    if a != [] {
      assert a[0] in a && b[0] in b;
      FirstIsLeast(a, b, less);
      DropFirst(a);
      DropFirst(b);
      SortedIsUnique(a[1..], b[1..], less);
    }
  }

  /** The sorted form does not depend on the order the elements were given in. */
  lemma SortIsCanonical<T(!new)>(a: seq<T>, b: seq<T>, less: (T, T) -> bool)
    requires Total(less) && multiset(a) == multiset(b)
    ensures Sort(a, less) == Sort(b, less)
  {
    SortSorted(a, less);
    SortSorted(b, less);
    SortedIsUnique(Sort(a, less), Sort(b, less), less);
  }

  // ---------------------------------------------------------------- unique

  /** `erase(unique(...), end)`: of equal neighbours only the first stays. */
  function Unique<T(==, !new)>(s: seq<T>): (r: seq<T>)
    ensures |r| <= |s| && (s != [] ==> r != [] && r[0] == s[0])
    ensures forall x :: x in r <==> x in s
  {
    if |s| < 2 then s
    else if s[0] == s[1] then Unique(s[1..])
    else
      assert s == [s[0]] + s[1..];
      [s[0]] + Unique(s[1..])
  }

  lemma {:induction false} UniqueIncreasing<T(!new)>(s: seq<T>, less: (T, T) -> bool)
    requires Total(less) && Sorted(s, less)
    ensures Increasing(Unique(s), less)
  {
    if |s| >= 2 {
      UniqueIncreasing(s[1..], less);
      if s[0] != s[1] {
        var tail := Unique(s[1..]);
        assert less(s[0], s[1]);
        forall j | 0 <= j < |tail|
          ensures less(s[0], tail[j])
        {
          assert tail[j] in s[1..];
        }
      }
    }
  }

  /** sort followed by unique: the strictly increasing list of the values that occur. */
  function Canonical<T(==, !new)>(s: seq<T>, less: (T, T) -> bool): seq<T> {
    Unique(Sort(s, less))
  }

  lemma CanonicalIncreasing<T(!new)>(s: seq<T>, less: (T, T) -> bool)
    requires Total(less)
    ensures Increasing(Canonical(s, less), less)
    ensures forall x :: x in Canonical(s, less) <==> x in s
    ensures |Canonical(s, less)| <= |s|
  {
    SortSorted(s, less);
    UniqueIncreasing(Sort(s, less), less);
  }

  /** A strictly increasing list is determined by the set of its elements. */
  lemma {:induction false} IncreasingIsUnique<T(!new)>(a: seq<T>, b: seq<T>, less: (T, T) -> bool)
    requires Weak(less) && Increasing(a, less) && Increasing(b, less)
    requires forall x :: x in a <==> x in b
    ensures a == b
  {
    if b != [] {
      assert b[0] in b;
    }
    if a != [] {
      assert a[0] in b && b != [] && b[0] in a;
      forall x
        ensures x in a[1..] <==> x in b[1..]
      {
        assert x in a <==> x == a[0] || x in a[1..];
        assert x in b <==> x == b[0] || x in b[1..];
      }
      IncreasingIsUnique(a[1..], b[1..], less);
    }
  }

  /** Normalising keeps exactly the lists that are already canonical. */
  lemma CanonicalFixes<T(!new)>(s: seq<T>, less: (T, T) -> bool)
    requires Total(less)
    ensures Canonical(s, less) == s <==> Increasing(s, less)
  {
    CanonicalIncreasing(s, less);
    if Increasing(s, less) {
      IncreasingIsUnique(Canonical(s, less), s, less);
    }
  }

  // ---------------------------------------------------------------- lower_bound

  /**
   `std::lower_bound` on a table strictly increasing in `key`, followed by the end-or-different
   test the callers make: the index of the entry with that key, or `|s|`.
   */
  method FindSorted<T, K(!new, ==)>(s: seq<T>, key: T -> K, less: (K, K) -> bool, k: K) returns (i: nat)
    requires Total(less)
    requires forall i, j | 0 <= i < j < |s| :: less(key(s[i]), key(s[j]))
    ensures i <= |s|
    ensures i < |s| ==> key(s[i]) == k && forall j | 0 <= j < |s| && key(s[j]) == k :: j == i
    ensures i == |s| ==> forall j | 0 <= j < |s| :: key(s[j]) != k
  {
    var first, count := 0, |s|;
    while count > 0
      invariant 0 <= first <= first + count <= |s|
      invariant forall j | 0 <= j < first :: less(key(s[j]), k)
      invariant forall j | first + count <= j < |s| :: !less(key(s[j]), k)
    {
      var step := count / 2;
      if less(key(s[first + step]), k) {
        first, count := first + step + 1, count - step - 1;
      } else {
        count := step;
      }
    }
    if first == |s| || key(s[first]) != k {
      i := |s|;
    } else {
      i := first;
    }
  }

  // ---------------------------------------------------------------- the orders in use

  predicate IntLess(a: int, b: int) {
    a < b
  }

  /** `std::string::operator<`. */
  predicate LexLess(a: Bytes, b: Bytes) {
    if b == [] then false
    else if a == [] then true
    else a[0] < b[0] || (a[0] == b[0] && LexLess(a[1..], b[1..]))
  }

  /** What the order means: at the first difference `a` has ended or has the smaller byte. */
  lemma {:induction false} LexMeans(a: Bytes, b: Bytes)
    ensures LexLess(a, b) <==>
      exists i :: 0 <= i <= |a| && i < |b| && a[..i] == b[..i] && (i == |a| || a[i] < b[i])
  {
    if b != [] && a != [] && a[0] == b[0] {
      LexMeans(a[1..], b[1..]);
      if i :| 0 <= i <= |a| && i < |b| && a[..i] == b[..i] && (i == |a| || a[i] < b[i]) {
        assert i > 0;
        assert a[1..][..i - 1] == a[..i][1..] && b[1..][..i - 1] == b[..i][1..];
      }
      var c, d := a[1..], b[1..];
      if i :| 0 <= i <= |c| && i < |d| && c[..i] == d[..i] && (i == |c| || c[i] < d[i]) {
        assert a[..i + 1] == [a[0]] + c[..i] && b[..i + 1] == [b[0]] + d[..i];
      }
    } else if b != [] {
      assert a[..0] == b[..0];
      if i :| 0 <= i <= |a| && i < |b| && a[..i] == b[..i] && (i == |a| || a[i] < b[i]) {
        assert i > 0 ==> a[..i][0] == b[..i][0];
      }
    }
  }

  lemma {:induction false} LexAsymmetric(a: Bytes, b: Bytes)
    ensures !(LexLess(a, b) && LexLess(b, a))
    ensures LexLess(a, b) || LexLess(b, a) || a == b
  {
    if a != [] && b != [] {
      LexAsymmetric(a[1..], b[1..]);
      assert a == [a[0]] + a[1..] && b == [b[0]] + b[1..];
    }
  }

  lemma {:induction false} LexTransitive(a: Bytes, b: Bytes, c: Bytes)
    requires LexLess(a, b) && LexLess(b, c)
    ensures LexLess(a, c)
  {
    if a != [] && a[0] == b[0] == c[0] {
      LexTransitive(a[1..], b[1..], c[1..]);
    }
  }

  lemma LexTotal()
    ensures Total(LexLess)
  {
    forall a, b
      ensures LexLess(a, b) ==> !LexLess(b, a)
      ensures LexLess(a, b) || LexLess(b, a) || a == b
    {
      LexAsymmetric(a, b);
    }
    forall a, b, c | LexLess(a, b) && LexLess(b, c)
      ensures LexLess(a, c)
    {
      LexTransitive(a, b, c);
    }
    forall a, b, c | !LexLess(b, a) && !LexLess(c, b)
      ensures !LexLess(c, a)
    {
      LexAsymmetric(a, b);
      LexAsymmetric(b, c);
      LexAsymmetric(a, c);
    }
  }

  /** The comparison `std::tie` builds: by the first component, then by the second. */
  function Then<A, B>(first: (A, A) -> bool, second: (B, B) -> bool): ((A, B), (A, B)) -> bool {
    (x: (A, B), y: (A, B)) => first(x.0, y.0) || (!first(y.0, x.0) && second(x.1, y.1))
  }

  lemma ThenTotal<A(!new), B(!new)>(first: (A, A) -> bool, second: (B, B) -> bool)
    requires Total(first) && Total(second)
    ensures Total(Then(first, second))
  {
    var less := Then(first, second);
    forall a: (A, B), b: (A, B) | less(a, b)
      ensures !less(b, a)
    {
      assert first(a.0, b.0) ==> !first(b.0, a.0);
      assert second(a.1, b.1) ==> !second(b.1, a.1);
    }
    forall a: (A, B), b: (A, B), c: (A, B) | !less(b, a) && !less(c, b)
      ensures !less(c, a)
    {
      assert !first(b.0, a.0) && !first(c.0, b.0);
      assert !first(c.0, a.0);
    }
    forall a: (A, B), b: (A, B) | !less(a, b) && !less(b, a)
      ensures a == b
    {
      assert a.0 == b.0 && a.1 == b.1;
    }
  }

  /** Comparing through a one-to-one key keeps totality. */
  lemma KeyTotal<T(!new), K(!new)>(key: T -> K, less: (K, K) -> bool, lessT: (T, T) -> bool)
    requires Total(less)
    requires forall a, b :: lessT(a, b) == less(key(a), key(b))
    requires forall a, b :: key(a) == key(b) ==> a == b
    ensures Total(lessT)
  {
  }
}
