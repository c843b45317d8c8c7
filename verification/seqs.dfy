/**
 * Sequence combinators used by the components: order-preserving filtering,
 * first-match search (Array.prototype.find) and the stable sort that
 * Array.prototype.sort performs with a numeric comparator.
 */
module Seqs {
  import opened Wrappers

  function Min(a: int, b: int): int {
    if a <= b then a else b
  }

  /** `a` can be obtained from `b` by deleting elements, keeping the rest in order. */
  ghost predicate IsSubseq<T>(a: seq<T>, b: seq<T>)
    decreases |b|
  {
    if a == [] then true
    else if b == [] then false
    else if a[0] == b[0] then IsSubseq(a[1..], b[1..])
    else IsSubseq(a, b[1..])
  }

  /** Array.prototype.filter: the elements satisfying `p`, in their original order. */
  function Filter<T>(p: T -> bool, s: seq<T>): (r: seq<T>)
    ensures |r| <= |s|
    ensures forall i :: 0 <= i < |r| ==> p(r[i])
  {
    if s == [] then []
    else if p(s[0]) then [s[0]] + Filter(p, s[1..])
    else Filter(p, s[1..])
  }

  lemma FilterCons<T>(p: T -> bool, x: T, t: seq<T>)
    ensures Filter(p, [x] + t) == if p(x) then [x] + Filter(p, t) else Filter(p, t)
  {
    assert ([x] + t)[1..] == t;
  }

  /** Filtering keeps every occurrence of a passing element and drops all others. */
  lemma {:induction false} FilterMultiset<T(!new)>(p: T -> bool, s: seq<T>)
    ensures forall x :: multiset(Filter(p, s))[x] == if p(x) then multiset(s)[x] else 0
  {
    if s != [] {
      FilterMultiset(p, s[1..]);
      assert s == [s[0]] + s[1..];
    }
  }

  /** Filtering keeps the surviving elements in their original order. */
  lemma {:induction false} FilterIsSubseq<T>(p: T -> bool, s: seq<T>)
    ensures IsSubseq(Filter(p, s), s)
  {
    if s != [] {
      FilterIsSubseq(p, s[1..]);
      var rest := Filter(p, s[1..]);
      if !p(s[0]) {
        assert rest != [] ==> rest[0] != s[0];
      } else {
        assert ([s[0]] + rest)[1..] == rest;
      }
    }
  }

  /** Filtering a sequence whose every element passes returns it unchanged. */
  lemma {:induction false} FilterAllPass<T>(p: T -> bool, s: seq<T>)
    requires forall i :: 0 <= i < |s| ==> p(s[i])
    ensures Filter(p, s) == s
  {
    if s != [] {
      FilterAllPass(p, s[1..]);
    }
  }

  /** Filtering distributes over concatenation. */
  lemma {:induction false} FilterAppend<T>(p: T -> bool, a: seq<T>, b: seq<T>)
    ensures Filter(p, a + b) == Filter(p, a) + Filter(p, b)
  {
    if a == [] {
      assert a + b == b;
    } else {
      FilterAppend(p, a[1..], b);
      var ab := a + b;
      assert ab != [] && ab[0] == a[0] && ab[1..] == a[1..] + b;
    }
  }

  /** Every element of a filtered sequence comes from the original. */
  lemma {:induction false} FilterMember<T>(p: T -> bool, s: seq<T>)
    ensures forall i :: 0 <= i < |Filter(p, s)| ==> Filter(p, s)[i] in s
  {
    if s != [] {
      FilterMember(p, s[1..]);
    }
  }

  /**
   * A relation that holds between every earlier and later element of `s`
   * still holds in the filtered sequence, because filtering keeps order.
   */
  lemma {:induction false} FilterPairwise<T>(R: (T, T) -> bool, p: T -> bool, s: seq<T>)
    requires forall i, j :: 0 <= i < j < |s| ==> R(s[i], s[j])
    ensures forall i, j :: 0 <= i < j < |Filter(p, s)| ==> R(Filter(p, s)[i], Filter(p, s)[j])
  {
    if s != [] && p(s[0]) {
      var t := Filter(p, s[1..]);
      FilterPairwise(R, p, s[1..]);
      FilterMember(p, s[1..]);
      forall j | 0 <= j < |t|
        ensures R(s[0], t[j])
      {
        var k :| 0 <= k < |s[1..]| && s[1..][k] == t[j];
        assert s[k + 1] == t[j];
      }
      var r := [s[0]] + t;
      forall i, j | 0 <= i < j < |r|
        ensures R(r[i], r[j])
      {
        assert r[j] == t[j - 1];
        if i > 0 {
          assert r[i] == t[i - 1];
        }
      }
    } else if s != [] {
      FilterPairwise(R, p, s[1..]);
    }
  }

  /** Filtering twice with the same predicate is filtering once. */
  lemma FilterIdempotent<T>(p: T -> bool, s: seq<T>)
    ensures Filter(p, Filter(p, s)) == Filter(p, s)
  {
    FilterAllPass(p, Filter(p, s));
  }

  /** Array.prototype.findIndex: the position of the first element satisfying `p`. */
  function FirstIndex<T>(p: T -> bool, s: seq<T>): (r: Option<nat>)
    ensures r.Some? ==> r.value < |s| && p(s[r.value])
    ensures r.Some? ==> forall j :: 0 <= j < r.value ==> !p(s[j])
    ensures r.None? ==> forall j :: 0 <= j < |s| ==> !p(s[j])
  {
    if s == [] then None
    else if p(s[0]) then Some(0)
    else match FirstIndex(p, s[1..])
      case None => None
      case Some(k) => Some(k + 1)
  }

  /** Non-increasing by `key`. */
  predicate SortedDesc<T>(key: T -> real, s: seq<T>) {
    forall i, j :: 0 <= i < j < |s| ==> key(s[i]) >= key(s[j])
  }

  /**
   * Places `x` in front of the first element whose key is not larger than its
   * own: every element skipped has a strictly larger key.
   */
  function InsertDesc<T(==)>(key: T -> real, x: T, s: seq<T>): (r: seq<T>)
    ensures multiset(r) == multiset(s) + multiset{x}
    ensures |r| == |s| + 1
    ensures r[0] == x || (s != [] && r[0] == s[0])
  {
    if s == [] then [x]
    else if key(x) >= key(s[0]) then [x] + s
    else
      assert s == [s[0]] + s[1..];
      [s[0]] + InsertDesc(key, x, s[1..])
  }

  lemma {:induction false} InsertDescSorted<T>(key: T -> real, x: T, s: seq<T>)
    requires SortedDesc(key, s)
    ensures SortedDesc(key, InsertDesc(key, x, s))
  {
    if s != [] && key(x) < key(s[0]) {
      InsertDescSorted(key, x, s[1..]);
    }
  }

  /**
   * Array.prototype.sort with the comparator `(a, b) => key(b) - key(a)`:
   * a stable sort into non-increasing key order. Insertion sort from the
   * back keeps earlier elements ahead of later ones with an equal key.
   */
  function SortDesc<T(==)>(key: T -> real, s: seq<T>): (r: seq<T>)
    ensures SortedDesc(key, r)
    ensures multiset(r) == multiset(s)
    ensures |r| == |s|
  {
    if s == [] then []
    else
      assert s == [s[0]] + s[1..];
      InsertDescSorted(key, s[0], SortDesc(key, s[1..]));
      InsertDesc(key, s[0], SortDesc(key, s[1..]))
  }

  /** The elements whose key equals `k`. */
  function KeyIs<T>(key: T -> real, k: real): T -> bool {
    y => key(y) == k
  }

  lemma {:induction false} InsertDescStable<T>(key: T -> real, x: T, s: seq<T>, k: real)
    ensures Filter(KeyIs(key, k), InsertDesc(key, x, s))
         == if key(x) == k then [x] + Filter(KeyIs(key, k), s) else Filter(KeyIs(key, k), s)
  {
    var p := KeyIs(key, k);
    if s == [] || key(x) >= key(s[0]) {
      assert InsertDesc(key, x, s) == [x] + s;
      FilterCons(p, x, s);
    } else {
      var rest := InsertDesc(key, x, s[1..]);
      assert InsertDesc(key, x, s) == [s[0]] + rest;
      InsertDescStable(key, x, s[1..], k);
      assert key(x) == k ==> !p(s[0]);
      FilterCons(p, s[0], rest);
      assert s == [s[0]] + s[1..];
      FilterCons(p, s[0], s[1..]);
    }
  }

  /** The sort is stable: elements of equal key keep their relative order. */
  lemma {:induction false} SortDescStable<T>(key: T -> real, s: seq<T>, k: real)
    ensures Filter(KeyIs(key, k), SortDesc(key, s)) == Filter(KeyIs(key, k), s)
  {
    if s != [] {
      SortDescStable(key, s[1..], k);
      InsertDescStable(key, s[0], SortDesc(key, s[1..]), k);
    }
  }

  /** Array.prototype.slice(0, n). */
  function Take<T>(s: seq<T>, n: nat): (r: seq<T>)
    ensures |r| == Min(n, |s|)
    ensures r <= s
  {
    s[..Min(n, |s|)]
  }
}
