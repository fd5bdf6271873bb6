/** Tables sorted once and searched by key: how the library detects repeated keys and looks entries up. */
module Tables {
  import opened Wrappers
  import opened Ordering

  /** Two entries have the same key. */
  ghost predicate Repeats<T, K>(s: seq<T>, key: T -> K) {
    exists i, j :: 0 <= i < j < |s| && key(s[i]) == key(s[j])
  }

  /** What the loops test: two neighbours have the same key. */
  predicate NeighboursRepeat<T, K(==)>(s: seq<T>, key: T -> K) {
    exists i | 0 < i < |s| :: key(s[i - 1]) == key(s[i])
  }

  /** The order of the entries decides by key first. */
  ghost predicate ByKeyFirst<T(!new), K(!new)>(less: (T, T) -> bool, key: T -> K, lessK: (K, K) -> bool) {
    Weak(less) && Total(lessK) && forall a, b :: lessK(key(a), key(b)) ==> less(a, b)
  }

  ghost predicate Keyed<T, K>(s: seq<T>, key: T -> K, lessK: (K, K) -> bool) {
    forall i, j | 0 <= i < j < |s| :: lessK(key(s[i]), key(s[j]))
  }

  lemma {:induction false} InsertRepeats<T(!new), K>(x: T, s: seq<T>, less: (T, T) -> bool, key: T -> K)
    ensures Repeats(Insert(x, s, less), key) <==> Repeats([x] + s, key)
  {
    hide Repeats;
    if s != [] && less(s[0], x) {
      InsertRepeats(x, s[1..], less, key);
      var tail := Insert(x, s[1..], less);
      RepeatsStep(s[0], tail, key);
      RepeatsStep(x, s, key);
      RepeatsStep(x, s[1..], key);
      RepeatsStep(s[0], s[1..], key);
      assert [s[0]] + s[1..] == s;
      SameElements(tail, [x] + s[1..]);
      InOneMore(x, s[1..]);
      InOneMore(s[0], s[1..]);
    }
  }

  lemma InOneMore<T(!new)>(x: T, s: seq<T>)
    ensures forall y :: y in [x] + s <==> y == x || y in s
  {
    assert ([x] + s)[0] == x;
  }

  lemma RepeatsStep<T(!new), K>(x: T, s: seq<T>, key: T -> K)
    ensures Repeats([x] + s, key) <==> Repeats(s, key) || exists y | y in s :: key(y) == key(x)
  {
    if Repeats([x] + s, key) {
      RepeatsWithFirst(x, s, key);
    }
    if Repeats(s, key) || exists y | y in s :: key(y) == key(x) {
      RepeatsWithout(x, s, key);
    }
  }

  lemma RepeatsWithFirst<T(!new), K>(x: T, s: seq<T>, key: T -> K)
    requires Repeats([x] + s, key)
    ensures Repeats(s, key) || exists y | y in s :: key(y) == key(x)
  {
    var t := [x] + s;
    var i, j :| 0 <= i < j < |t| && key(t[i]) == key(t[j]);
    assert t[j] == s[j - 1];
    if i > 0 {
      assert t[i] == s[i - 1];
    } else {
      assert s[j - 1] in s && key(s[j - 1]) == key(x);
    }
  }

  lemma RepeatsWithout<T(!new), K>(x: T, s: seq<T>, key: T -> K)
    requires Repeats(s, key) || exists y | y in s :: key(y) == key(x)
    ensures Repeats([x] + s, key)
  {
    var t := [x] + s;
    if Repeats(s, key) {
      var i, j :| 0 <= i < j < |s| && key(s[i]) == key(s[j]);
      assert t[i + 1] == s[i] && t[j + 1] == s[j];
    } else {
      var y :| y in s && key(y) == key(x);
      var j :| 0 <= j < |s| && s[j] == y;
      assert t[0] == x && t[j + 1] == y;
    }
  }

  lemma {:induction false} SortRepeats<T(!new), K>(s: seq<T>, less: (T, T) -> bool, key: T -> K)
    ensures Repeats(Sort(s, less), key) <==> Repeats(s, key)
  {
    if s != [] {
      var tail := Sort(s[1..], less);
      SortRepeats(s[1..], less, key);
      InsertRepeats(s[0], tail, less, key);
      RepeatsStep(s[0], tail, key);
      RepeatsStep(s[0], s[1..], key);
      SameElements(tail, s[1..]);
      assert [s[0]] + s[1..] == s;
    }
  }

  /** In a table sorted by key, repeated keys are neighbours; without any, the keys increase strictly. */
  lemma SortedNeighbours<T(!new), K(!new)>(s: seq<T>, less: (T, T) -> bool, key: T -> K, lessK: (K, K) -> bool)
    requires ByKeyFirst(less, key, lessK) && Sorted(s, less)
    ensures NeighboursRepeat(s, key) <==> Repeats(s, key)
    ensures !Repeats(s, key) ==> Keyed(s, key, lessK)
  {
    if Repeats(s, key) {
      var i, j :| 0 <= i < j < |s| && key(s[i]) == key(s[j]);
      assert !lessK(key(s[j]), key(s[i + 1])) && !lessK(key(s[i + 1]), key(s[i]));
      assert key(s[i + 1 - 1]) == key(s[i + 1]);
    } else {
      forall i, j | 0 <= i < j < |s|
        ensures lessK(key(s[i]), key(s[j]))
      {
        assert !lessK(key(s[j]), key(s[i]));
      }
    }
  }

  /** Sorting and comparing neighbours finds exactly the repetitions of the list as it was given. */
  lemma SortFindsRepeats<T(!new), K(!new)>(s: seq<T>, less: (T, T) -> bool, key: T -> K, lessK: (K, K) -> bool)
    requires ByKeyFirst(less, key, lessK)
    ensures NeighboursRepeat(Sort(s, less), key) <==> Repeats(s, key)
    ensures !Repeats(s, key) ==> Keyed(Sort(s, less), key, lessK)
  {
    SortSorted(s, less);
    SortedNeighbours(Sort(s, less), less, key, lessK);
    SortRepeats(s, less, key);
  }

  // ---------------------------------------------------------------- lookup

  /** The reference for a lookup: the first entry with the key. */
  function Linear<T, K(==)>(s: seq<T>, key: T -> K, k: K): Option<T> {
    if s == [] then None else if key(s[0]) == k then Some(s[0]) else Linear(s[1..], key, k)
  }

  lemma {:induction false} LinearMeans<T(!new), K>(s: seq<T>, key: T -> K, k: K)
    ensures Linear(s, key, k).None? <==> forall x | x in s :: key(x) != k
    ensures Linear(s, key, k).Some? ==> Linear(s, key, k).value in s && key(Linear(s, key, k).value) == k
  {
    if s != [] {
      LinearMeans(s[1..], key, k);
      assert s == [s[0]] + s[1..];
      InOneMore(s[0], s[1..]);
    }
  }

  /** Without repeated keys, entries with the same key are the same entry. */
  lemma SameKeySameEntry<T(!new), K>(s: seq<T>, key: T -> K, x: T, y: T)
    requires !Repeats(s, key) && x in s && y in s && key(x) == key(y)
    ensures x == y
  {
    var i :| 0 <= i < |s| && s[i] == x;
    var j :| 0 <= j < |s| && s[j] == y;
  }

  /** Looking up in the sorted table finds the entry of the list as it was given. */
  lemma LookupSurvivesSorting<T(!new), K>(s: seq<T>, less: (T, T) -> bool, key: T -> K, k: K)
    requires !Repeats(s, key)
    ensures Linear(Sort(s, less), key, k) == Linear(s, key, k)
  {
    var t := Sort(s, less);
    SameElements(t, s);
    LinearMeans(s, key, k);
    LinearMeans(t, key, k);
    if Linear(s, key, k).Some? {
      assert Linear(s, key, k).value in t;
      SameKeySameEntry(s, key, Linear(s, key, k).value, Linear(t, key, k).value);
    }
  }

  /** `lower_bound` and the test after it agree with linear search for every key. */
  method Lookup<T(!new), K(!new, ==)>(s: seq<T>, key: T -> K, lessK: (K, K) -> bool, k: K) returns (r: Option<T>)
    requires Total(lessK) && Keyed(s, key, lessK)
    ensures r == Linear(s, key, k)
  {
    var i := FindSorted(s, key, lessK, k);
    LinearMeans(s, key, k);
    if i == |s| {
      return None;
    }
    return Some(s[i]);
  }
}
