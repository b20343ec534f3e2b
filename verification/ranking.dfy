/** Stable sorting and ranking.

    Python's `sorted`, Rust's `sort_by` and JavaScript's `Array.prototype.sort` are all stable:
    elements with equal keys keep their original relative order. A stable sort of a sequence is
    therefore the unique arrangement of its positions under the strict total order "greater key
    first, then smaller original position first", and that is how it is modelled here: the model
    sorts the index list `0 .. n-1` under `Precedes` and then reads the records in that order. */
module Ranking {

  /** A sort key: larger `major` first, then larger `minor` first. Ascending sorts use negated keys. */
  datatype Key = Key(major: int, minor: real)

  predicate Above(a: Key, b: Key) {
    a.major > b.major || (a.major == b.major && a.minor > b.minor)
  }

  /** Position `i` comes before position `j` in the stable descending order. */
  predicate Precedes(keys: seq<Key>, i: nat, j: nat)
    requires i < |keys| && j < |keys|
  {
    Above(keys[i], keys[j]) || (keys[i] == keys[j] && i < j)
  }

  predicate Indices(keys: seq<Key>, s: seq<nat>) {
    forall k :: 0 <= k < |s| ==> s[k] < |keys|
  }

  predicate SortedBy(keys: seq<Key>, s: seq<nat>)
    requires Indices(keys, s)
  {
    forall a, b :: 0 <= a < b < |s| ==> Precedes(keys, s[a], s[b])
  }

  lemma PrecedesTotal(keys: seq<Key>, i: nat, j: nat)
    requires i < |keys| && j < |keys| && i != j
    ensures Precedes(keys, i, j) || Precedes(keys, j, i)
  {
  }

  lemma PrecedesTransitive(keys: seq<Key>, i: nat, j: nat, k: nat)
    requires i < |keys| && j < |keys| && k < |keys|
    requires Precedes(keys, i, j) && Precedes(keys, j, k)
    ensures Precedes(keys, i, k)
  {
  }

  lemma PrecedesIrreflexive(keys: seq<Key>, i: nat, j: nat)
    requires i < |keys| && j < |keys| && Precedes(keys, i, j)
    ensures !Precedes(keys, j, i) && i != j
  {
  }

  /** Inserts position `i` into a sorted list of positions. */
  function Insert(keys: seq<Key>, i: nat, s: seq<nat>): (r: seq<nat>)
    requires i < |keys| && Indices(keys, s) && SortedBy(keys, s) && i !in s
    ensures Indices(keys, r) && SortedBy(keys, r)
    ensures multiset(r) == multiset(s) + multiset{i}
    ensures |r| == |s| + 1
  {
    if |s| == 0 then [i]
    else if Precedes(keys, i, s[0]) then
      var r := [i] + s;
      forall a, b | 0 <= a < b < |r| ensures Precedes(keys, r[a], r[b]) {
        if a == 0 && b > 1 {
          PrecedesTransitive(keys, i, s[0], s[b - 1]);
        }
      }
      r
    else
      PrecedesTotal(keys, i, s[0]);
      var t := Insert(keys, i, s[1..]);
      assert multiset(s) == multiset{s[0]} + multiset(s[1..]) by {
        assert s == [s[0]] + s[1..];
      }
      var r := [s[0]] + t;
      forall a, b | 0 <= a < b < |r| ensures Precedes(keys, r[a], r[b]) {
        if a == 0 {
          assert r[b] in multiset(t);
          if r[b] != i {
            assert r[b] in multiset(s[1..]);
            var c :| 0 <= c < |s[1..]| && s[1..][c] == r[b];
            assert Precedes(keys, s[0], s[c + 1]);
          }
        }
      }
      r
  }

  /** Insertion sort of a duplicate-free list of positions. */
  function SortIdx(keys: seq<Key>, s: seq<nat>): (r: seq<nat>)
    requires Indices(keys, s)
    requires forall a, b :: 0 <= a < b < |s| ==> s[a] != s[b]
    ensures Indices(keys, r) && SortedBy(keys, r)
    ensures multiset(r) == multiset(s)
    ensures |r| == |s|
  {
    if |s| == 0 then []
    else
      var t := SortIdx(keys, s[1..]);
      HeadApart(s, t);
      Insert(keys, s[0], t)
  }

  /** The head of a duplicate-free list is not among the rest, wherever they went. */
  lemma HeadApart(s: seq<nat>, t: seq<nat>)
    requires |s| > 0 && forall a, b :: 0 <= a < b < |s| ==> s[a] != s[b]
    requires multiset(t) == multiset(s[1..])
    ensures s[0] !in t && multiset(s) == multiset(t) + multiset{s[0]}
  {
    forall c | 0 <= c < |s[1..]| ensures s[1..][c] != s[0] {
      assert s[1..][c] == s[c + 1];
    }
    assert s[0] !in multiset(t);
    assert s == [s[0]] + s[1..];
  }

  function Range(n: nat): (r: seq<nat>)
    ensures |r| == n
    ensures forall k :: 0 <= k < n ==> r[k] == k
  {
    seq(n, k => k)
  }

  /** The stable descending order of the positions of `keys`. */
  function Order(keys: seq<Key>): (r: seq<nat>)
    ensures |r| == |keys| && Indices(keys, r) && SortedBy(keys, r)
    ensures multiset(r) == multiset(Range(|keys|))
  {
    SortIdx(keys, Range(|keys|))
  }

  lemma OrderCovers(keys: seq<Key>, i: nat)
    requires i < |keys|
    ensures i in Order(keys)
  {
    assert Range(|keys|)[i] == i;
    assert i in multiset(Range(|keys|));
    assert i in multiset(Order(keys));
  }

  /** Position of `x` in a list that contains it. */
  function IndexOf(s: seq<nat>, x: nat): (p: nat)
    requires x in s
    ensures p < |s| && s[p] == x
    ensures forall q :: 0 <= q < p ==> s[q] != x
  {
    if s[0] == x then 0 else 1 + IndexOf(s[1..], x)
  }

  /** rank(i) = 1 + the place of position i in the stable descending order. */
  function Ranks(keys: seq<Key>): (r: seq<nat>)
    ensures |r| == |keys|
  {
    var order := Order(keys);
    seq(|keys|, i requires 0 <= i < |keys| =>
      OrderCovers(keys, i);
      IndexOf(order, i) + 1)
  }

  /** Ranks are a permutation of 1..n: each lies in [1, n] and no two positions share one. */
  lemma RanksArePermutation(keys: seq<Key>)
    ensures forall i :: 0 <= i < |keys| ==> 1 <= Ranks(keys)[i] <= |keys|
    ensures forall i, j :: 0 <= i < j < |keys| ==> Ranks(keys)[i] != Ranks(keys)[j]
  {
    var order := Order(keys);
    var r := Ranks(keys);
    forall i, j | 0 <= i < j < |keys| ensures r[i] != r[j] {
      OrderCovers(keys, i);
      OrderCovers(keys, j);
      assert order[IndexOf(order, i)] == i;
      assert order[IndexOf(order, j)] == j;
    }
  }

  /** Ranks respect the keys, and equal keys are ranked in their original order. */
  lemma RanksFollowKeys(keys: seq<Key>, i: nat, j: nat)
    requires i < |keys| && j < |keys| && Precedes(keys, i, j)
    ensures Ranks(keys)[i] < Ranks(keys)[j]
  {
    var order := Order(keys);
    var pi := RankIs(keys, i);
    var pj := RankIs(keys, j);
    PrecedesIrreflexive(keys, i, j);
    if pj < pi {
      assert false;
    }
  }

  /** The rank of position `i` is one more than its place in the order. */
  lemma RankIs(keys: seq<Key>, i: nat) returns (p: nat)
    requires i < |keys|
    ensures p < |keys| && Order(keys)[p] == i && Ranks(keys)[i] == p + 1
  {
    OrderCovers(keys, i);
    p := IndexOf(Order(keys), i);
  }

  /** The record placed `a`-th by the stable order has rank `a + 1`. */
  lemma RankOfOrder(keys: seq<Key>, a: nat)
    requires a < |keys|
    ensures Ranks(keys)[Order(keys)[a]] == a + 1
  {
    var order := Order(keys);
    var i := order[a];
    OrderCovers(keys, i);
  }

  /** The records rearranged in the given order of positions. */
  function Arrange<T>(recs: seq<T>, order: seq<nat>): (r: seq<T>)
    requires forall k :: 0 <= k < |order| ==> order[k] < |recs|
    ensures |r| == |order|
    ensures forall k :: 0 <= k < |order| ==> r[k] == recs[order[k]]
  {
    seq(|order|, k requires 0 <= k < |order| => recs[order[k]])
  }

  /** A stable sort of `recs` by `keys`, greatest key first. */
  function StableSort<T>(recs: seq<T>, keys: seq<Key>): (r: seq<T>)
    requires |keys| == |recs|
    ensures |r| == |recs|
  {
    Arrange(recs, Order(keys))
  }

  /** The sorted records are the input records, in an order that never places a
      record after one it precedes. */
  lemma StableSortSpec<T>(recs: seq<T>, keys: seq<Key>)
    requires |keys| == |recs|
    ensures multiset(StableSort(recs, keys)) == multiset(recs)
    ensures forall a, b :: 0 <= a < b < |recs| ==>
              Precedes(keys, Order(keys)[a], Order(keys)[b])
    ensures forall a :: 0 <= a < |recs| ==> StableSort(recs, keys)[a] == recs[Order(keys)[a]]
  {
    var order := Order(keys);
    ArrangePermutation(recs, order, |recs|);
  }

  lemma {:induction false} ArrangePermutation<T>(recs: seq<T>, order: seq<nat>, n: nat)
    requires n == |recs| && |order| == n
    requires forall k :: 0 <= k < |order| ==> order[k] < |recs|
    requires multiset(order) == multiset(Range(n))
    ensures multiset(Arrange(recs, order)) == multiset(recs)
  {
    // Both sides are the image of the index multiset of 0 to n - 1 under recs.
    ImageOfMultiset(recs, order);
    ImageOfMultiset(recs, Range(n));
    assert Arrange(recs, Range(n)) == recs;
    ImageDependsOnMultiset(recs, order, Range(n));
  }

  lemma {:induction false} ImageOfMultiset<T>(recs: seq<T>, idx: seq<nat>)
    requires forall k :: 0 <= k < |idx| ==> idx[k] < |recs|
    ensures multiset(Arrange(recs, idx)) == Image(recs, idx)
  {
    if |idx| > 0 {
      var tail := idx[1..];
      ImageOfMultiset(recs, tail);
      assert Arrange(recs, idx) == [recs[idx[0]]] + Arrange(recs, tail);
    }
  }

  function Image<T>(recs: seq<T>, idx: seq<nat>): multiset<T>
    requires forall k :: 0 <= k < |idx| ==> idx[k] < |recs|
  {
    if |idx| == 0 then multiset{} else multiset{recs[idx[0]]} + Image(recs, idx[1..])
  }

  lemma {:induction false} ImageDependsOnMultiset<T>(recs: seq<T>, a: seq<nat>, b: seq<nat>)
    requires forall k :: 0 <= k < |a| ==> a[k] < |recs|
    requires forall k :: 0 <= k < |b| ==> b[k] < |recs|
    requires multiset(a) == multiset(b)
    ensures Image(recs, a) == Image(recs, b)
    decreases |a|
  {
    if |a| > 0 {
      var p := MatchHead(a, b);
      var b' := b[..p] + b[p + 1..];
      assert forall k :: 0 <= k < |b'| ==> b'[k] in b;
      ImageDependsOnMultiset(recs, a[1..], b');
      ImageRemoveAt(recs, b, p);
    }
  }

  /** Where the head of `a` sits in a list with the same elements, and what is left. */
  lemma MatchHead(a: seq<nat>, b: seq<nat>) returns (p: nat)
    requires |a| > 0 && multiset(a) == multiset(b)
    ensures p < |b| && b[p] == a[0]
    ensures multiset(a[1..]) == multiset(b[..p] + b[p + 1..])
  {
    var x := a[0];
    assert x in multiset(b);
    p :| 0 <= p < |b| && b[p] == x;
    MultisetRemoveAt(b, p);
    MultisetRemoveHead(a);
  }

  lemma MultisetRemoveHead(a: seq<nat>)
    requires |a| > 0
    ensures multiset(a[1..]) == multiset(a) - multiset{a[0]}
  {
    assert a == [a[0]] + a[1..];
  }

  lemma MultisetRemoveAt(b: seq<nat>, p: nat)
    requires p < |b|
    ensures multiset(b[..p] + b[p + 1..]) == multiset(b) - multiset{b[p]}
  {
    assert b == b[..p] + ([b[p]] + b[p + 1..]);
    assert multiset(b) == multiset(b[..p]) + (multiset{b[p]} + multiset(b[p + 1..]));
  }

  lemma {:induction false} ImageRemoveAt<T>(recs: seq<T>, b: seq<nat>, p: nat)
    requires forall k :: 0 <= k < |b| ==> b[k] < |recs|
    requires p < |b|
    ensures Image(recs, b) == multiset{recs[b[p]]} + Image(recs, b[..p] + b[p + 1..])
  {
    if p > 0 {
      var rest := b[1..];
      ImageRemoveAt(recs, rest, p - 1);
      RemoveAtCons(b, p);
    } else {
      assert b[..p] + b[p + 1..] == b[1..];
    }
  }
  lemma RemoveAtCons<T>(b: seq<T>, p: nat)
    requires 0 < p < |b|
    ensures b[..p] + b[p + 1..] == [b[0]] + (b[1..][..p - 1] + b[1..][p..])
  {
  }

  function AscendingKeys<T>(recs: seq<T>, f: T -> real): (keys: seq<Key>)
    ensures |keys| == |recs|
    ensures forall i :: 0 <= i < |recs| ==> keys[i] == Key(0, -f(recs[i]))
  {
    seq(|recs|, i requires 0 <= i < |recs| => Key(0, -f(recs[i])))
  }

  function DescendingKeys<T>(recs: seq<T>, f: T -> real): (keys: seq<Key>)
    ensures |keys| == |recs|
    ensures forall i :: 0 <= i < |recs| ==> keys[i] == Key(0, f(recs[i]))
  {
    seq(|recs|, i requires 0 <= i < |recs| => Key(0, f(recs[i])))
  }

  /** Python's `sorted(recs, key=f)`: a stable sort, smallest key first. */
  function SortAscendingBy<T>(recs: seq<T>, f: T -> real): (r: seq<T>)
    ensures |r| == |recs| && multiset(r) == multiset(recs)
    ensures forall a, b :: 0 <= a < b < |r| ==> f(r[a]) <= f(r[b])
  {
    var keys := AscendingKeys(recs, f);
    StableSortSpec(recs, keys);
    StableSort(recs, keys)
  }

  /** `sorted(recs, key=f, reverse=True)`: a stable sort, largest key first. */
  function SortDescendingBy<T>(recs: seq<T>, f: T -> real): (r: seq<T>)
    ensures |r| == |recs| && multiset(r) == multiset(recs)
    ensures forall a, b :: 0 <= a < b < |r| ==> f(r[a]) >= f(r[b])
  {
    var keys := DescendingKeys(recs, f);
    StableSortSpec(recs, keys);
    StableSort(recs, keys)
  }
}
