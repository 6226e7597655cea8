/** Sequence helpers that stand for the JavaScript array library calls the
    source relies on: `filter`, `find`, `sort` with a comparator, and the
    order-preserving subsequence relation used to state their results. */
module Seqs {
  import opened Wrappers

  /** `a` can be obtained from `b` by deleting elements, keeping the order. */
  predicate SubseqOf<T(==)>(a: seq<T>, b: seq<T>)
    decreases |b|
  {
    a == [] || (b != [] && ((a[0] == b[0] && SubseqOf(a[1..], b[1..])) || SubseqOf(a, b[1..])))
  }

  lemma {:induction false} SubseqRefl<T>(a: seq<T>)
    ensures SubseqOf(a, a)
    decreases |a|
  {
    if a != [] {
      SubseqRefl(a[1..]);
    }
  }

  lemma {:induction false} SubseqTrans<T>(a: seq<T>, b: seq<T>, c: seq<T>)
    requires SubseqOf(a, b) && SubseqOf(b, c)
    ensures SubseqOf(a, c)
    decreases |c|
  {
    if a != [] {
      if SubseqOf(b, c[1..]) {
        SubseqTrans(a, b, c[1..]);
      } else if a[0] == b[0] && SubseqOf(a[1..], b[1..]) {
        SubseqTrans(a[1..], b[1..], c[1..]);
      } else {
        SubseqTrans(a, b[1..], c[1..]);
      }
    }
  }

  /** Array.prototype.filter: the elements satisfying `p`, in their order. */
  function Filter<T>(s: seq<T>, p: T -> bool): (r: seq<T>)
    ensures |r| <= |s|
    decreases |s|
  {
    if s == [] then []
    else if p(s[0]) then [s[0]] + Filter(s[1..], p)
    else Filter(s[1..], p)
  }

  /** The filtered sequence holds exactly the elements that satisfy `p`. */
  lemma {:induction false} FilterMembers<T>(s: seq<T>, p: T -> bool)
    ensures forall x :: x in Filter(s, p) <==> x in s && p(x)
    decreases |s|
  {
    if s != [] {
      FilterMembers(s[1..], p);
      assert s == [s[0]] + s[1..];
    }
  }

  /** Filtering keeps every copy of an element that passes and none of
      one that fails. */
  lemma {:induction false} FilterCount<T>(s: seq<T>, p: T -> bool)
    ensures forall x :: multiset(Filter(s, p))[x] == if p(x) then multiset(s)[x] else 0
    decreases |s|
  {
    if s != [] {
      FilterCount(s[1..], p);
      assert s == [s[0]] + s[1..];
    }
  }

  lemma {:induction false} FilterIsSubseq<T>(s: seq<T>, p: T -> bool)
    ensures SubseqOf(Filter(s, p), s)
    decreases |s|
  {
    if s != [] {
      FilterIsSubseq(s[1..], p);
    }
  }

  lemma {:induction false} FilterNone<T>(s: seq<T>, p: T -> bool)
    requires forall x :: x in s ==> !p(x)
    ensures Filter(s, p) == []
    decreases |s|
  {
    if s != [] {
      FilterNone(s[1..], p);
    }
  }

  lemma {:induction false} FilterAppend<T>(s: seq<T>, t: seq<T>, p: T -> bool)
    ensures Filter(s + t, p) == Filter(s, p) + Filter(t, p)
    decreases |s|
  {
    if s == [] {
      assert s + t == t;
    } else {
      assert (s + t)[1..] == s[1..] + t;
      FilterAppend(s[1..], t, p);
    }
  }

  /** Array.prototype.find / findIndex: the first position whose element
      satisfies `p`, or nothing. */
  function FirstWhere<T>(s: seq<T>, p: T -> bool): (r: Option<nat>)
    ensures r.Some? ==> r.value < |s| && p(s[r.value])
    ensures r.Some? ==> forall j :: 0 <= j < r.value ==> !p(s[j])
    ensures r.None? <==> forall j :: 0 <= j < |s| ==> !p(s[j])
    decreases |s|
  {
    if s == [] then None
    else if p(s[0]) then Some(0)
    else match FirstWhere(s[1..], p)
      case None => None
      case Some(k) => Some(k + 1)
  }

  /** No element occurs twice. */
  predicate Distinct<T(==)>(s: seq<T>) {
    forall i, j :: 0 <= i < j < |s| ==> s[i] != s[j]
  }

  /** The set of a sequence without repetitions has as many elements as it. */
  lemma {:induction false} DistinctCard<T>(s: seq<T>)
    requires Distinct(s)
    ensures |set x | x in s| == |s|
    decreases |s|
  {
    if s != [] {
      DistinctCard(s[1..]);
      var rest := set x | x in s[1..];
      assert s[0] !in rest;
      assert (set x | x in s) == {s[0]} + rest;
    }
  }

  // ---------------------------------------------------------------------
  // The getters of the memory store return `[...xs].sort((a, b) => b.t - a.t)`.
  // Array.prototype.sort is stable, so the result is the stable sort by
  // descending key. It is written here as an insertion sort over the input
  // read from left to right.

  /** Every element's key is at least that of every later element. */
  predicate NewestFirst<T>(s: seq<T>, key: T -> int) {
    forall i, j :: 0 <= i < j < |s| ==> key(s[i]) >= key(s[j])
  }

  /** The subsequence of the elements whose key is `k`. */
  function WithKey<T>(s: seq<T>, key: T -> int, k: int): seq<T> {
    Filter(s, KeyIs(key, k))
  }

  function KeyIs<T>(key: T -> int, k: int): T -> bool {
    x => key(x) == k
  }

  /** Inserts `x` after every element whose key is not smaller. */
  function InsertNewestFirst<T>(t: seq<T>, x: T, key: T -> int): (r: seq<T>)
    ensures |r| == |t| + 1
    decreases |t|
  {
    if t == [] then [x]
    else if key(t[0]) >= key(x) then [t[0]] + InsertNewestFirst(t[1..], x, key)
    else [x] + t
  }

  /** `[...s].sort((a, b) => key(b) - key(a))`, by insertion: a copy of the
      same length (see SortNewestFirstCorrect for the rest). */
  function SortNewestFirst<T>(s: seq<T>, key: T -> int): (r: seq<T>)
    ensures |r| == |s|
    decreases |s|
  {
    if s == [] then []
    else InsertNewestFirst(SortNewestFirst(s[..|s| - 1], key), s[|s| - 1], key)
  }

  lemma {:induction false} InsertPermutes<T>(t: seq<T>, x: T, key: T -> int)
    ensures multiset(InsertNewestFirst(t, x, key)) == multiset(t) + multiset{x}
    decreases |t|
  {
    if t != [] && key(t[0]) >= key(x) {
      InsertPermutes(t[1..], x, key);
      assert t == [t[0]] + t[1..];
    }
  }

  /** Every element of the insertion is `x` or an element of `t`. */
  lemma {:induction false} InsertMembers<T>(t: seq<T>, x: T, key: T -> int)
    ensures forall y :: y in InsertNewestFirst(t, x, key) ==> y == x || y in t
    decreases |t|
  {
    if t != [] && key(t[0]) >= key(x) {
      InsertMembers(t[1..], x, key);
      assert forall y :: y in t[1..] ==> y in t;
    }
  }

  lemma {:induction false} InsertOrdered<T>(t: seq<T>, x: T, key: T -> int)
    requires NewestFirst(t, key)
    ensures NewestFirst(InsertNewestFirst(t, x, key), key)
    decreases |t|
  {
    if t != [] && key(t[0]) >= key(x) {
      var r' := InsertNewestFirst(t[1..], x, key);
      var r := [t[0]] + r';
      InsertOrdered(t[1..], x, key);
      InsertMembers(t[1..], x, key);
      forall j | 0 < j < |r| ensures key(r[0]) >= key(r[j]) {
        assert r[j] == r'[j - 1] && r'[j - 1] in r';
        if r[j] != x {
          var k :| 0 <= k < |t[1..]| && t[1..][k] == r[j];
          assert t[k + 1] == r[j];
        }
      }
      forall i, j | 0 < i < j < |r| ensures key(r[i]) >= key(r[j]) {
        assert r[i] == r'[i - 1] && r[j] == r'[j - 1];
      }
    }
  }

  lemma {:induction false} InsertStable<T>(t: seq<T>, x: T, key: T -> int, k: int)
    requires NewestFirst(t, key)
    ensures WithKey(InsertNewestFirst(t, x, key), key, k)
         == WithKey(t, key, k) + (if key(x) == k then [x] else [])
    decreases |t|
  {
    var p := KeyIs(key, k);
    var tail := if key(x) == k then [x] else [];
    assert Filter([x], p) == tail;
    if t == [] {
    } else if key(t[0]) >= key(x) {
      var r' := InsertNewestFirst(t[1..], x, key);
      InsertStable(t[1..], x, key, k);
      assert Filter(r', p) == Filter(t[1..], p) + tail;
      assert InsertNewestFirst(t, x, key) == [t[0]] + r';
      FilterAppend([t[0]], r', p);
      assert t == [t[0]] + t[1..];
      FilterAppend([t[0]], t[1..], p);
    } else {
      assert InsertNewestFirst(t, x, key) == [x] + t;
      FilterAppend([x], t, p);
      if key(x) == k {
        forall y | y in t ensures !p(y) {
          var j :| 0 <= j < |t| && t[j] == y;
          assert key(t[0]) >= key(t[j]);
        }
        FilterNone(t, p);
      }
    }
  }

  /** The newest-first sort is a permutation of its input, ordered by
      descending key. */
  lemma {:induction false} SortNewestFirstCorrect<T>(s: seq<T>, key: T -> int)
    ensures multiset(SortNewestFirst(s, key)) == multiset(s)
    ensures NewestFirst(SortNewestFirst(s, key), key)
    decreases |s|
  {
    if s != [] {
      var init, last := s[..|s| - 1], s[|s| - 1];
      SortNewestFirstCorrect(init, key);
      InsertPermutes(SortNewestFirst(init, key), last, key);
      InsertOrdered(SortNewestFirst(init, key), last, key);
      assert s == init + [last];
    }
  }

  /** The newest-first sort is stable: the elements that share a key keep
      their relative order. */
  lemma {:induction false} SortNewestFirstStable<T>(s: seq<T>, key: T -> int, k: int)
    ensures WithKey(SortNewestFirst(s, key), key, k) == WithKey(s, key, k)
    decreases |s|
  {
    if s != [] {
      var init, last := s[..|s| - 1], s[|s| - 1];
      SortNewestFirstStable(init, key, k);
      SortNewestFirstCorrect(init, key);
      InsertStable(SortNewestFirst(init, key), last, key, k);
      assert s == init + [last];
      FilterAppend(init, [last], KeyIs(key, k));
    }
  }
}
