/** Logical paths (src/model.cpp): the scanner of `logical_path::parse`, against the grammar it recognises. */
module Paths {
  import opened Wrappers
  import opened Bytes

  const SLASH: byte := '/' as int
  const DOT: byte := '.' as int

  predicate Proper(c: Bytes) {
    c != [] && c != [DOT] && c != [DOT, DOT] && SLASH !in c && 0 !in c
  }

  /** The components joined by slashes. */
  function Join(cs: seq<Bytes>): Bytes
    requires cs != []
  {
    if |cs| == 1 then cs[0] else cs[0] + [SLASH] + Join(cs[1..])
  }

  /** The root, or a slash before a nonempty slash-joined list of proper components. */
  ghost predicate Grammar(s: Bytes) {
    s == [SLASH] || exists cs: seq<Bytes> :: cs != [] && (forall c | c in cs :: Proper(c)) && s == [SLASH] + Join(cs)
  }

  /** `find`: the first slash at or after `from`, or the length. */
  function Find(s: Bytes, from: nat): (i: nat)
    requires from <= |s|
    ensures from <= i <= |s| && (i < |s| ==> s[i] == SLASH) && forall j | from <= j < i :: s[j] != SLASH
    decreases |s| - from
  {
    if from == |s| || s[from] == SLASH then from else Find(s, from + 1)
  }

  function Split(s: Bytes): (cs: seq<Bytes>)
    ensures cs != []
  {
    var i := Find(s, 0);
    if i == |s| then [s] else [s[..i]] + Split(s[i + 1..])
  }

  lemma {:induction false} JoinSplit(s: Bytes)
    ensures Join(Split(s)) == s
  {
    var i := Find(s, 0);
    if i < |s| {
      JoinSplit(s[i + 1..]);
      assert Split(s)[1..] == Split(s[i + 1..]);
      assert s == s[..i] + [SLASH] + s[i + 1..];
    }
  }

  lemma {:induction false} SplitJoin(cs: seq<Bytes>)
    requires cs != [] && forall c | c in cs :: SLASH !in c
    ensures Split(Join(cs)) == cs
  {
    hide Find;
    assert SLASH !in cs[0];
    if |cs| == 1 {
      FirstSlash(cs[0], []);
      assert cs[0] + [] == cs[0];
    } else {
      var tail := Join(cs[1..]);
      SplitJoin(cs[1..]);
      FirstSlash(cs[0], [SLASH] + tail);
      assert Join(cs) == cs[0] + ([SLASH] + tail);
      assert Join(cs)[..|cs[0]|] == cs[0] && Join(cs)[|cs[0]| + 1..] == tail;
    }
  }

  /** A slash-free component ends where its separator, or the string, does. */
  lemma FirstSlash(c: Bytes, rest: Bytes)
    requires SLASH !in c && (rest == [] || rest[0] == SLASH)
    ensures Find(c + rest, 0) == |c|
  {
    hide Find;
    forall j | 0 <= j < |c|
      ensures (c + rest)[j] != SLASH
    {
      assert c[j] in c;
    }
    assert rest != [] ==> (c + rest)[|c|] == rest[0];
  }

  lemma {:induction false} SplitParts(s: Bytes)
    ensures forall c | c in Split(s) :: SLASH !in c
    ensures (exists c | c in Split(s) :: 0 in c) <==> 0 in s
  {
    var i := Find(s, 0);
    if i < |s| {
      SplitParts(s[i + 1..]);
      var head := s[..i];
      assert SLASH !in head;
      assert s == head + [SLASH] + s[i + 1..];
      assert 0 in s <==> 0 in head || 0 in s[i + 1..];
      var cs := Split(s);
      assert cs == [head] + Split(s[i + 1..]) && cs[0] == head;
      if 0 in head {
        assert cs[0] in cs;
      }
    } else {
      assert Split(s)[0] == s;
    }
  }

  predicate AllProper(cs: seq<Bytes>) {
    forall c | c in cs :: Proper(c)
  }

  /** Splitting and joining are inverse on accepted strings, so the grammar can be decided by splitting. */
  lemma GrammarBySplitting(s: Bytes)
    ensures Grammar(s) <==> s == [SLASH] || (s != [] && s[0] == SLASH && AllProper(Split(s[1..])))
  {
    if s != [] {
      assert s == [s[0]] + s[1..];
      JoinSplit(s[1..]);
    }
    if cs: seq<Bytes> :| cs != [] && AllProper(cs) && s == [SLASH] + Join(cs) {
      assert s[1..] == Join(cs);
      SplitJoin(cs);
    }
  }

  /** The components of an accepted path are determined by it. */
  lemma ComponentsAreUnique(a: seq<Bytes>, b: seq<Bytes>)
    requires a != [] && b != [] && AllProper(a) && AllProper(b) && [SLASH] + Join(a) == [SLASH] + Join(b)
    ensures a == b
  {
    assert Join(a) == ([SLASH] + Join(a))[1..] == ([SLASH] + Join(b))[1..];
    SplitJoin(a);
    SplitJoin(b);
  }

  /** One turn of the scanner takes the next component off. */
  lemma SplitStep(s: Bytes, begin: nat)
    requires begin <= |s|
    ensures var end := Find(s, begin);
      Split(s[begin..]) == [s[begin..end]] + if end == |s| then [] else Split(s[end + 1..])
  {
    hide Find;
    var end := Find(s, begin);
    var c, rest := s[begin..end], s[end..];
    assert s[begin..] == c + rest;
    FirstSlash(c, rest);
    assert (c + rest)[..|c|] == c;
    if end < |s| {
      assert (c + rest)[|c| + 1..] == s[end + 1..];
    } else {
      assert c + rest == c;
    }
  }

  /** A path that ends with a slash has an empty last component. */
  lemma {:induction false} TrailingSlash(s: Bytes)
    requires s != [] && s[|s| - 1] == SLASH
    ensures !AllProper(Split(s))
  {
    hide Find, Proper;
    var i := Find(s, 0);
    var rest := s[i + 1..];
    var cs := Split(s);
    assert cs == [s[..i]] + Split(rest);
    if rest == [] {
      assert Split(rest) == [rest];
      EmptyIsImproper(rest);
      assert cs[1] == rest && cs[1] in cs;
    } else {
      assert rest[|rest| - 1] == s[|s| - 1];
      TrailingSlash(rest);
      var c :| c in Split(rest) && !Proper(c);
      assert c in cs;
    }
  }

  lemma EmptyIsImproper(c: Bytes)
    requires c == []
    ensures !Proper(c)
  {
  }

  /** The three texts the scanner compares a component with. */
  predicate Rejected(c: Bytes) {
    c == [] || c == [DOT] || c == [DOT, DOT]
  }

  lemma ScanStep(s: Bytes, begin: nat)
    requires begin <= |s| && 0 !in s
    ensures var end := Find(s, begin);
      AllProper(Split(s[begin..])) <==>
        !Rejected(s[begin..end]) && (end == |s| || AllProper(Split(s[end + 1..])))
  {
    hide Split, Find;
    var end := Find(s, begin);
    var c := s[begin..end];
    var more := if end == |s| then [] else Split(s[end + 1..]);
    SplitStep(s, begin);
    assert Proper(c) <==> !Rejected(c);
    assert ([c] + more)[0] == c;
    assert forall x :: x in [c] + more <==> x == c || x in more;
  }

  /** logical_path::parse accepts exactly the grammar, and returns the string unchanged. */
  method ParsePath(value: Text) returns (r: Result<Text>)
    ensures r == if Grammar(value) then Ok(value) else Err(InvalidPath)
  {
    hide Grammar, Split, Find, AllProper, Rejected;
    GrammarBySplitting(value);
    if value == [] || value[0] != SLASH {
      return Err(InvalidPath);
    }
    NulIsImproper(value);
    if 0 in value {
      return Err(InvalidPath);
    }
    if value == [SLASH] {
      return Ok(value);
    }
    if |value| > 1 && value[|value| - 1] == SLASH {
      TrailingSlash(value[1..]);
      return Err(InvalidPath);
    }
    var begin := 1;
    while begin <= |value|
      invariant 1 <= begin <= |value|
      invariant AllProper(Split(value[1..])) <==> AllProper(Split(value[begin..]))
    {
      var end := Find(value, begin);
      ScanStep(value, begin);
      if Rejected(value[begin..end]) {
        return Err(InvalidPath);
      }
      if end == |value| {
        break;
      }
      begin := end + 1;
    }
    return Ok(value);
  }

  lemma NulIsImproper(value: Bytes)
    requires value != [] && value[0] == SLASH
    ensures 0 in value ==> value != [SLASH] && !AllProper(Split(value[1..]))
  {
    hide Split;
    assert value == [SLASH] + value[1..];
    SplitParts(value[1..]);
  }
}
