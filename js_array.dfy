/** Models of the JavaScript Array built-ins the resolvers are written with
    (`find`, `indexOf`, `filter`, `map`, `push`, `splice(i, 1)`), over Dafny
    sequences, together with the facts about them that the store relies on. */
module JsArray {
  import opened Wrappers

  /** Index `i` holds the first element of `s` that satisfies `p`. */
  ghost predicate FirstMatch<T>(s: seq<T>, p: T -> bool, i: int)
  {
    0 <= i < |s| && p(s[i]) && forall j :: 0 <= j < i ==> !p(s[j])
  }

  /** The index of the first element satisfying `p`, or -1 when there is none:
      the specification of "the first match", which the resolvers compute as
      `s.indexOf(s.find(p))`. */
  function FindIndex<T>(s: seq<T>, p: T -> bool): (r: int)
    ensures -1 <= r < |s|
    ensures r == -1 <==> forall j :: 0 <= j < |s| ==> !p(s[j])
    ensures r != -1 ==> FirstMatch(s, p, r)
    decreases |s|
  {
    if |s| == 0 then -1
    else if p(s[0]) then 0
    else
      var k := FindIndex(s[1..], p);
      if k == -1 then -1 else k + 1
  }

  /** `Array.prototype.find`: the first element satisfying `p`; `None` stands for
      `undefined`. */
  function Find<T>(s: seq<T>, p: T -> bool): (r: Option<T>)
    ensures r.None? <==> forall j :: 0 <= j < |s| ==> !p(s[j])
    ensures r.Some? ==> FindIndex(s, p) != -1 && r.value == s[FindIndex(s, p)]
    decreases |s|
  {
    if |s| == 0 then None
    else if p(s[0]) then Some(s[0])
    else Find(s[1..], p)
  }

  /** `Array.prototype.indexOf`: the first index holding `x`, or -1. The source
      compares objects by reference; records here are values, compared by value. */
  function IndexOf<T(==)>(s: seq<T>, x: T): (r: int)
    ensures -1 <= r < |s|
    ensures r == -1 <==> x !in s
    ensures r != -1 ==> s[r] == x && forall j :: 0 <= j < r ==> s[j] != x
    decreases |s|
  {
    if |s| == 0 then -1
    else if s[0] == x then 0
    else
      var k := IndexOf(s[1..], x);
      if k == -1 then -1 else k + 1
  }

  /** `Array.prototype.map`. */
  function Map<T, U>(s: seq<T>, f: T -> U): (r: seq<U>)
    ensures |r| == |s|
    ensures forall i :: 0 <= i < |s| ==> r[i] == f(s[i])
  {
    seq(|s|, i requires 0 <= i < |s| => f(s[i]))
  }

  /** `r` is obtained from `s` by deleting some elements, keeping the order of the rest. */
  ghost predicate IsSubsequence<T>(r: seq<T>, s: seq<T>)
    decreases |s|
  {
    |r| == 0 ||
    (|s| > 0 &&
     ((r[0] == s[0] && IsSubsequence(r[1..], s[1..])) || IsSubsequence(r, s[1..])))
  }

  /** `Array.prototype.filter`: the elements satisfying `p` and nothing else.
      FilterCount and FilterIsSubsequence below add that every occurrence is kept,
      in the original order. */
  function Filter<T(!new)>(s: seq<T>, p: T -> bool): (r: seq<T>)
    ensures forall x :: x in r <==> x in s && p(x)
    decreases |s|
  {
    if |s| == 0 then []
    else
      var rest := Filter(s[1..], p);
      assert s == [s[0]] + s[1..];
      if p(s[0]) then [s[0]] + rest else rest
  }

  /** `Array.prototype.splice(i, 1)`: the element at `i` is removed, the elements
      before it keep their index and the elements after it move down by one. */
  function Splice<T>(s: seq<T>, i: int): (r: seq<T>)
    requires 0 <= i < |s|
    ensures |r| == |s| - 1
    ensures forall k :: 0 <= k < i ==> r[k] == s[k]
    ensures forall k :: i <= k < |r| ==> r[k] == s[k + 1]
    ensures multiset(r) == multiset(s) - multiset{s[i]}
  {
    assert s == s[..i] + [s[i]] + s[i + 1..];
    s[..i] + s[i + 1..]
  }

  /** Every element of `s` has its own key: no two positions share one. */
  ghost predicate DistinctBy<T, K>(s: seq<T>, key: T -> K)
  {
    forall i, j :: 0 <= i < j < |s| ==> key(s[i]) != key(s[j])
  }

  /** `x in s` read off the mapped array: `s.map(f).includes(v)` holds exactly when
      some element of `s` is mapped to `v`. */
  lemma MapIncludes<T, U>(s: seq<T>, f: T -> U, v: U)
    ensures v in Map(s, f) <==> exists x :: x in s && f(x) == v
  {
  }

  /** `s.indexOf(s.find(p))` is the index of the first element satisfying `p`:
      no earlier element can equal the found one, since it would satisfy `p` too. */
  lemma IndexOfFind<T>(s: seq<T>, p: T -> bool)
    requires Find(s, p).Some?
    ensures IndexOf(s, Find(s, p).value) == FindIndex(s, p)
  {
  }

  /** Finding in a table whose keys are distinct, by the key of one of its
      elements, gives back that element. */
  lemma FindOwnKey<T, K>(s: seq<T>, key: T -> K, i: int)
    requires DistinctBy(s, key)
    requires 0 <= i < |s|
    ensures Find(s, y => key(y) == key(s[i])) == Some(s[i])
  {
  }

  /** A subsequence holds only elements of the original. */
  lemma {:induction false} SubsequenceMembers<T>(r: seq<T>, s: seq<T>, x: T)
    requires IsSubsequence(r, s)
    requires x in r
    ensures x in s
    decreases |s|
  {
    if |r| > 0 && |s| > 0 {
      if r[0] == s[0] && IsSubsequence(r[1..], s[1..]) {
        if x != r[0] {
          assert r == [r[0]] + r[1..];
          SubsequenceMembers(r[1..], s[1..], x);
        }
      } else {
        SubsequenceMembers(r, s[1..], x);
      }
    }
  }

  /** Deleting elements cannot make two keys equal: a subsequence of a table with
      distinct keys has distinct keys. */
  lemma {:induction false} SubsequenceDistinct<T, K>(r: seq<T>, s: seq<T>, key: T -> K)
    requires IsSubsequence(r, s)
    requires DistinctBy(s, key)
    ensures DistinctBy(r, key)
    decreases |s|
  {
    if |r| > 0 {
      assert |s| > 0;
      assert DistinctBy(s[1..], key);
      if r[0] == s[0] && IsSubsequence(r[1..], s[1..]) {
        SubsequenceDistinct(r[1..], s[1..], key);
        forall j | 0 < j < |r| ensures key(r[0]) != key(r[j]) {
          assert r[j] in r[1..];
          SubsequenceMembers(r[1..], s[1..], r[j]);
          var m :| 0 <= m < |s[1..]| && s[1..][m] == r[j];
          assert s[m + 1] == r[j];
        }
      } else {
        SubsequenceDistinct(r, s[1..], key);
      }
    }
  }

  /** Filtering distributes over concatenation: the matches of `a` come first, in
      their order, then those of `b`. */
  lemma {:induction false} FilterAppend<T(!new)>(a: seq<T>, b: seq<T>, p: T -> bool)
    ensures Filter(a + b, p) == Filter(a, p) + Filter(b, p)
    decreases |a|
  {
    if |a| == 0 {
      assert a + b == b;
    } else {
      var ab := a + b;
      assert ab[0] == a[0];
      assert ab[1..] == a[1..] + b;
      FilterAppend(a[1..], b, p);
      var head := if p(a[0]) then [a[0]] else [];
      assert Filter(ab, p) == head + Filter(ab[1..], p);
      assert Filter(a, p) == head + Filter(a[1..], p);
    }
  }

  /** Every sequence is a subsequence of itself. */
  lemma {:induction false} SubsequenceReflexive<T>(s: seq<T>)
    ensures IsSubsequence(s, s)
    decreases |s|
  {
    if |s| > 0 {
      SubsequenceReflexive(s[1..]);
    }
  }

  /** Filtering keeps every occurrence of a matching element and drops every
      occurrence of the others. */
  lemma {:induction false} FilterCount<T(!new)>(s: seq<T>, p: T -> bool, x: T)
    ensures multiset(Filter(s, p))[x] == if p(x) then multiset(s)[x] else 0
    decreases |s|
  {
    if |s| > 0 {
      FilterCount(s[1..], p, x);
      assert s == [s[0]] + s[1..];
      assert multiset(s) == multiset{s[0]} + multiset(s[1..]);
    }
  }

  /** FilterCount for every element at once. */
  lemma FilterCounts<T(!new)>(s: seq<T>, p: T -> bool)
    ensures forall x :: multiset(Filter(s, p))[x] == if p(x) then multiset(s)[x] else 0
  {
    forall x ensures multiset(Filter(s, p))[x] == if p(x) then multiset(s)[x] else 0 {
      FilterCount(s, p, x);
    }
  }

  /** Filtering keeps the matching elements in their original order. */
  lemma {:induction false} FilterIsSubsequence<T(!new)>(s: seq<T>, p: T -> bool)
    ensures IsSubsequence(Filter(s, p), s)
    decreases |s|
  {
    if |s| > 0 {
      FilterIsSubsequence(s[1..], p);
      var rest := Filter(s[1..], p);
      if p(s[0]) {
        assert ([s[0]] + rest)[1..] == rest;
      }
    }
  }

  /** A filtered table with distinct keys has distinct keys. */
  lemma FilterKeepsDistinct<T(!new), K>(s: seq<T>, p: T -> bool, key: T -> K)
    ensures DistinctBy(s, key) ==> DistinctBy(Filter(s, p), key)
  {
    if DistinctBy(s, key) {
      FilterIsSubsequence(s, p);
      SubsequenceDistinct(Filter(s, p), s, key);
    }
  }

  /** Removing one element keeps the others in order. */
  lemma {:induction false} SpliceIsSubsequence<T>(s: seq<T>, i: int)
    requires 0 <= i < |s|
    ensures IsSubsequence(Splice(s, i), s)
    decreases i
  {
    var r := Splice(s, i);
    if i == 0 {
      assert r == s[1..];
      SubsequenceReflexive(s[1..]);
    } else {
      SpliceIsSubsequence(s[1..], i - 1);
      assert r[1..] == Splice(s[1..], i - 1);
    }
  }

  /** After `push(x)` onto a table where nothing matched, `find` returns `x`
      when `x` matches. */
  lemma FindAfterPush<T>(s: seq<T>, x: T, p: T -> bool)
    requires Find(s, p).None?
    requires p(x)
    ensures Find(s + [x], p) == Some(x)
  {
    var t := s + [x];
    assert p(t[|s|]);
    assert forall j :: 0 <= j < |s| ==> t[j] == s[j];
  }

  /** Appending an element with a new key keeps the keys distinct. */
  lemma PushKeepsDistinct<T, K>(s: seq<T>, x: T, key: T -> K)
    requires DistinctBy(s, key)
    requires forall j :: 0 <= j < |s| ==> key(s[j]) != key(x)
    ensures DistinctBy(s + [x], key)
  {
  }

  /** Overwriting an element by one with the same key keeps the keys distinct. */
  lemma OverwriteKeepsDistinct<T, K>(s: seq<T>, i: int, y: T, key: T -> K)
    requires DistinctBy(s, key)
    requires 0 <= i < |s| && key(y) == key(s[i])
    ensures DistinctBy(s[i := y], key)
  {
  }

  /** In a table with distinct keys, splicing out position `i` removes the only
      element with its key, and the keys left stay distinct. */
  lemma SpliceRemovesKey<T, K>(s: seq<T>, i: int, key: T -> K)
    requires DistinctBy(s, key)
    requires 0 <= i < |s|
    ensures forall k :: 0 <= k < |s| - 1 ==> key(Splice(s, i)[k]) != key(s[i])
    ensures DistinctBy(Splice(s, i), key)
  {
  }
}
