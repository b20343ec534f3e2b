/** Sequence helpers: filtering, counting, bounded suffixes and sums. */
module Seqs {
  import opened Wrappers

  /** The elements of `s` that satisfy `p`, in their original order. */
  function Filter<T>(s: seq<T>, p: T -> bool): (r: seq<T>)
    ensures |r| <= |s|
    ensures forall k :: 0 <= k < |r| ==> r[k] in s && p(r[k])
    ensures forall k :: 0 <= k < |s| && p(s[k]) ==> s[k] in r
  {
    if |s| == 0 then [] else (if p(s[0]) then [s[0]] else []) + Filter(s[1..], p)
  }

  /** Number of elements of `s` satisfying `p`. */
  function Count<T>(s: seq<T>, p: T -> bool): nat {
    |Filter(s, p)|
  }

  lemma {:induction false} FilterAppend<T>(a: seq<T>, b: seq<T>, p: T -> bool)
    ensures Filter(a + b, p) == Filter(a, p) + Filter(b, p)
  {
    if |a| == 0 {
      assert a + b == b;
    } else {
      assert (a + b)[1..] == a[1..] + b;
      FilterAppend(a[1..], b, p);
    }
  }

  /** Filtering by `p` and by its negation splits a sequence into two parts that add up to it. */
  lemma {:induction false} CountComplement<T>(s: seq<T>, p: T -> bool, q: T -> bool)
    requires forall x :: q(x) == !p(x)
    ensures Count(s, p) + Count(s, q) == |s|
  {
    if |s| > 0 {
      CountComplement(s[1..], p, q);
    }
  }

  /** The last `n` elements of `s` (all of them when there are fewer). */
  function TakeLast<T>(s: seq<T>, n: nat): (r: seq<T>)
    ensures |r| == if |s| <= n then |s| else n
    ensures |s| <= n ==> r == s
    ensures forall k :: 0 <= k < |r| ==> r[k] == s[|s| - |r| + k]
  {
    if |s| <= n then s else s[|s| - n..]
  }

  /** The first `n` elements of `s` (all of them when there are fewer). */
  function Take<T>(s: seq<T>, n: nat): (r: seq<T>)
    ensures |r| == if |s| <= n then |s| else n
    ensures r <= s
  {
    if |s| <= n then s else s[..n]
  }

  /** Taking from a sequence with a known head: the head, then what is taken from the rest. */
  lemma TakeCons<T>(x: T, s: seq<T>, n: nat)
    requires n > 0
    ensures Take([x] + s, n) == [x] + Take(s, n - 1)
  {
    if n - 1 < |s| {
      assert ([x] + s)[..n] == [x] + s[..n - 1];
    }
  }

  /** A prefix holds each element at most as often as the whole sequence. */
  lemma PrefixSubMultiset<T>(p: seq<T>, s: seq<T>)
    requires p <= s
    ensures multiset(p) <= multiset(s)
  {
    assert s == p + s[|p|..];
    assert multiset(s) == multiset(p) + multiset(s[|p|..]);
  }

  function Sum(s: seq<real>): real {
    if |s| == 0 then 0.0 else s[0] + Sum(s[1..])
  }

  lemma {:induction false} SumNonNegative(s: seq<real>)
    requires forall k :: 0 <= k < |s| ==> s[k] >= 0.0
    ensures Sum(s) >= 0.0
  {
    if |s| > 0 {
      SumNonNegative(s[1..]);
    }
  }

  lemma {:induction false} SumBounded(s: seq<real>, lo: real, hi: real)
    requires forall k :: 0 <= k < |s| ==> lo <= s[k] <= hi
    ensures lo * |s| as real <= Sum(s) <= hi * |s| as real
  {
    if |s| > 0 {
      SumBounded(s[1..], lo, hi);
    }
  }

  lemma {:induction false} SumAppend(a: seq<real>, b: seq<real>)
    ensures Sum(a + b) == Sum(a) + Sum(b)
  {
    if |a| == 0 {
      assert a + b == b;
    } else {
      assert (a + b)[1..] == a[1..] + b;
      SumAppend(a[1..], b);
    }
  }

  /** Arithmetic mean; 0.0 for the empty sequence. */
  function Mean(s: seq<real>): real {
    if |s| == 0 then 0.0 else Sum(s) / |s| as real
  }

  lemma MeanBounded(s: seq<real>, lo: real, hi: real)
    requires |s| > 0
    requires forall k :: 0 <= k < |s| ==> lo <= s[k] <= hi
    ensures lo <= Mean(s) <= hi
  {
    SumBounded(s, lo, hi);
    var n := |s| as real;
    assert lo * n <= Sum(s) <= hi * n;
    assert Sum(s) / n >= lo by {
      assert Sum(s) >= lo * n;
    }
    assert Sum(s) / n <= hi by {
      assert Sum(s) <= hi * n;
    }
  }

  /** Largest element, `dflt` for the empty sequence (Python's `max(..., default=...)`). */
  function MaxOr(s: seq<real>, dflt: real): (r: real)
    ensures |s| == 0 ==> r == dflt
    ensures |s| > 0 ==> r in s && forall k :: 0 <= k < |s| ==> s[k] <= r
  {
    if |s| == 0 then dflt
    else if |s| == 1 then s[0]
    else
      var m := MaxOr(s[1..], dflt);
      assert m in s[1..];
      if s[0] >= m then s[0] else m
  }

  /** The mean of a non-empty sequence is at most its largest element. */
  lemma MeanAtMostMax(s: seq<real>)
    requires |s| > 0
    ensures Mean(s) <= MaxOr(s, 0.0)
  {
    MeanBounded(s, MinOr(s, 0.0), MaxOr(s, 0.0));
  }

  /** Smallest element, `dflt` for the empty sequence. */
  function MinOr(s: seq<real>, dflt: real): (r: real)
    ensures |s| == 0 ==> r == dflt
    ensures |s| > 0 ==> r in s && forall k :: 0 <= k < |s| ==> r <= s[k]
  {
    if |s| == 0 then dflt
    else if |s| == 1 then s[0]
    else
      var m := MinOr(s[1..], dflt);
      assert m in s[1..];
      if s[0] <= m then s[0] else m
  }

  /** Python's `s[start:]` for any integer `start`: a negative start counts from the end. */
  function PySuffix<T>(s: seq<T>, start: int): (r: seq<T>)
    ensures |r| <= |s| && r == s[|s| - |r|..]
    ensures 0 <= start ==> |r| == if start <= |s| then |s| - start else 0
    ensures start < 0 ==> |r| == if -start <= |s| then -start else |s|
  {
    var from := if start < 0 then (if |s| + start < 0 then 0 else |s| + start)
                else (if start > |s| then |s| else start);
    s[from..]
  }

  /** Position of the first element satisfying `p`. */
  function FirstIndex<T>(s: seq<T>, p: T -> bool): (r: Option<nat>)
    ensures r.Some? ==> r.value < |s| && p(s[r.value])
    ensures r.Some? ==> forall k :: 0 <= k < r.value ==> !p(s[k])
    ensures r.None? ==> forall k :: 0 <= k < |s| ==> !p(s[k])
  {
    if |s| == 0 then None
    else if p(s[0]) then Some(0)
    else match FirstIndex(s[1..], p)
      case Some(k) => Some(k + 1)
      case None => None
  }

  /** Filtering keeps a sequence ordered by `key`. */
  lemma {:induction false} FilterKeepsOrder<T>(s: seq<T>, p: T -> bool, key: T -> real)
    requires forall a, b :: 0 <= a < b < |s| ==> key(s[a]) <= key(s[b])
    ensures forall a, b :: 0 <= a < b < |Filter(s, p)| ==> key(Filter(s, p)[a]) <= key(Filter(s, p)[b])
  {
    if |s| > 0 {
      var t := Filter(s[1..], p);
      FilterKeepsOrder(s[1..], p, key);
      forall k | 0 <= k < |t| ensures key(s[0]) <= key(t[k]) {
        assert t[k] in s[1..];
        var j :| 0 <= j < |s[1..]| && s[1..][j] == t[k];
        assert s[j + 1] == t[k];
      }
    }
  }

  /** Two arrangements of the same elements have the same members. */
  lemma SameMembers<T>(a: seq<T>, b: seq<T>)
    requires multiset(a) == multiset(b)
    ensures forall x :: x in a <==> x in b
  {
    forall x ensures x in a <==> x in b {
      assert x in a <==> x in multiset(a);
    }
  }

  /** Filtering two arrangements of the same elements keeps the same elements. */
  lemma FilterOfPermutation<T>(a: seq<T>, b: seq<T>, p: T -> bool)
    requires multiset(a) == multiset(b)
    ensures forall k :: 0 <= k < |Filter(a, p)| ==> Filter(a, p)[k] in b
    ensures forall k :: 0 <= k < |b| && p(b[k]) ==> b[k] in Filter(a, p)
  {
    var f := Filter(a, p);
    forall k | 0 <= k < |f| ensures f[k] in b {
      assert f[k] in multiset(a);
    }
    forall k | 0 <= k < |b| && p(b[k]) ensures b[k] in f {
      assert b[k] in multiset(a);
    }
  }

  /** Python's `s[:stop]` for any integer `stop`: a negative stop counts from the end. */
  function PyPrefix<T>(s: seq<T>, stop: int): (r: seq<T>)
    ensures r <= s
    ensures 0 <= stop ==> |r| == if stop <= |s| then stop else |s|
    ensures stop < 0 ==> |r| == if -stop <= |s| then |s| + stop else 0
  {
    var to := if stop < 0 then (if |s| + stop < 0 then 0 else |s| + stop)
              else (if stop > |s| then |s| else stop);
    s[..to]
  }

  /** Filtering twice by the same predicate changes nothing the second time. */
  lemma {:induction false} FilterIdempotent<T>(s: seq<T>, p: T -> bool)
    ensures Filter(Filter(s, p), p) == Filter(s, p)
  {
    if |s| > 0 {
      FilterIdempotent(s[1..], p);
      var f := Filter(s, p);
      if p(s[0]) {
        assert f == [s[0]] + Filter(s[1..], p);
        assert f[0] == s[0] && f[1..] == Filter(s[1..], p);
        assert Filter(f, p) == [f[0]] + Filter(f[1..], p);
      } else {
        assert f == Filter(s[1..], p);
      }
    }
  }

  /** `part / whole * 100`, a percentage of a positive whole. */
  function Percent(part: nat, whole: nat): (r: real)
    requires 0 < whole
    ensures 0.0 <= r
    ensures part <= whole ==> r <= 100.0
    ensures part == whole <==> r == 100.0
  {
    var q := part as real / whole as real;
    assert q * whole as real == part as real;
    q * 100.0
  }

  /** No two elements share a value of `f`. */
  predicate DistinctBy<T(==), K(==)>(s: seq<T>, f: T -> K) {
    forall i, j :: 0 <= i < j < |s| ==> f(s[i]) != f(s[j])
  }

  function ImageSet<T(==), K(==)>(s: seq<T>, f: T -> K): set<K> {
    set x | x in s :: f(x)
  }

  lemma {:induction false} ImageOfDistinct<T, K>(s: seq<T>, f: T -> K)
    requires DistinctBy(s, f)
    ensures |ImageSet(s, f)| == |s|
  {
    if s != [] {
      ImageOfDistinct(s[1..], f);
      assert ImageSet(s, f) == {f(s[0])} + ImageSet(s[1..], f) by {
        assert forall x :: x in s <==> x == s[0] || x in s[1..];
      }
      assert f(s[0]) !in ImageSet(s[1..], f);
    }
  }

  lemma {:induction false} ImageAtMostLength<T, K>(s: seq<T>, f: T -> K)
    ensures |ImageSet(s, f)| <= |s|
  {
    if s != [] {
      ImageAtMostLength(s[1..], f);
      assert ImageSet(s, f) == {f(s[0])} + ImageSet(s[1..], f) by {
        assert forall x :: x in s <==> x == s[0] || x in s[1..];
      }
    }
  }

  lemma {:induction false} FilterKeepsDistinct<T, K>(s: seq<T>, f: T -> K, p: T -> bool)
    requires DistinctBy(s, f)
    ensures DistinctBy(Filter(s, p), f)
  {
    if s != [] {
      FilterKeepsDistinct(s[1..], f, p);
      var rest := Filter(s[1..], p);
      forall k | 0 <= k < |rest| ensures f(rest[k]) != f(s[0]) {
        assert rest[k] in s[1..];
      }
    }
  }

  lemma SubsetCard<K>(a: set<K>, b: set<K>)
    requires a <= b
    ensures |a| <= |b|
  {
    assert b == a + (b - a);
  }

  /** The elements of `s` whose key is the key of some element of `top`, in order. */
  function KeepByKey<T(==), K(==)>(s: seq<T>, top: seq<T>, f: T -> K): (r: seq<T>)
    ensures forall k :: 0 <= k < |r| ==> r[k] in s && f(r[k]) in ImageSet(top, f)
    ensures forall k :: 0 <= k < |s| && f(s[k]) in ImageSet(top, f) ==> s[k] in r
  {
    Filter(s, (x: T) => f(x) in ImageSet(top, f))
  }

  /** Keeping by the keys of `top` leaves at most `|top|` elements, with distinct keys, when
      the keys of `s` are distinct. */
  lemma KeepByKeyBounded<T, K>(s: seq<T>, top: seq<T>, f: T -> K)
    requires DistinctBy(s, f)
    ensures DistinctBy(KeepByKey(s, top, f), f) && |KeepByKey(s, top, f)| <= |top|
  {
    var r := Filter(s, (x: T) => f(x) in ImageSet(top, f));
    FilterKeepsDistinct(s, f, (x: T) => f(x) in ImageSet(top, f));
    ImageOfDistinct(r, f);
    ImageAtMostLength(top, f);
    SubsetCard(ImageSet(r, f), ImageSet(top, f));
  }

  /** Filtering a sequence with distinct keys so that every kept key is a key of `top`
      keeps at most `|top|` elements. */
  lemma FilterIntoBounded<T, K>(s: seq<T>, p: T -> bool, top: seq<T>, f: T -> K)
    requires DistinctBy(s, f)
    requires forall k :: 0 <= k < |s| && p(s[k]) ==> f(s[k]) in ImageSet(top, f)
    ensures |Filter(s, p)| <= |top|
  {
    var r := Filter(s, p);
    FilterKeepsDistinct(s, f, p);
    ImageOfDistinct(r, f);
    ImageAtMostLength(top, f);
    forall y | y in ImageSet(r, f) ensures y in ImageSet(top, f) {
      var x :| x in r && f(x) == y;
      var k :| 0 <= k < |s| && s[k] == x;
    }
    SubsetCard(ImageSet(r, f), ImageSet(top, f));
  }

  /** With distinct keys, no element occurs twice. */
  lemma {:induction false} DistinctByOnce<T, K>(s: seq<T>, f: T -> K, x: T)
    requires DistinctBy(s, f)
    ensures multiset(s)[x] <= 1
  {
    if s != [] {
      assert s == [s[0]] + s[1..];
      DistinctByOnce(s[1..], f, x);
    }
  }

  /** An element found at two positions occurs at least twice. */
  lemma TwiceAt<T>(s: seq<T>, i: nat, j: nat)
    requires i < j < |s| && s[i] == s[j]
    ensures multiset(s)[s[i]] >= 2
  {
    assert s == s[..j] + s[j..];
    assert s[i] in s[..j];
    assert s[j] == s[j..][0];
  }
}
