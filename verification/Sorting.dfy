/**
  Sorting by a comparison, as the source's `sort.Sort` and `sort.Slice` do. Insertion sort
  stands for the library's algorithm, which is not part of this model.
 */
module Sorting {
  import opened Seqs

  /** A comparison that ranks: nothing is both before and after, and "not before" is transitive. */
  ghost predicate Ranks<T(!new)>(less: (T, T) -> bool) {
    && (forall a, b :: less(a, b) ==> !less(b, a))
    && (forall a, b, c :: !less(a, b) && !less(b, c) ==> !less(a, c))
  }

  ghost predicate SortedBy<T>(less: (T, T) -> bool, s: seq<T>) {
    forall i, j :: 0 <= i < j < |s| ==> !less(s[j], s[i])
  }

  lemma {:induction false} InsertKeepsOrder<T(!new)>(less: (T, T) -> bool, s: seq<T>, k: nat, x: T, i: nat, j: nat)
    requires Ranks(less) && SortedBy(less, s) && k <= |s|
    requires forall l :: k <= l < |s| ==> less(x, s[l])
    requires k > 0 ==> !less(x, s[k - 1])
    requires i < j <= |s|
    ensures var r := s[..k] + [x] + s[k..]; !less(r[j], r[i])
  {
    if j == k && i < k - 1 {
      assert !less(s[k - 1], s[i]);
    }
  }

  method Insert<T(!new)>(less: (T, T) -> bool, s: seq<T>, x: T) returns (r: seq<T>)
    requires Ranks(less) && SortedBy(less, s)
    ensures SortedBy(less, r)
    ensures multiset(r) == multiset(s) + multiset{x}
  {
    var k := |s|;
    while k > 0 && less(x, s[k - 1])
      invariant 0 <= k <= |s|
      invariant forall l :: k <= l < |s| ==> less(x, s[l])
    {
      k := k - 1;
    }
    r := s[..k] + [x] + s[k..];
    InsertContents(s, k, x);
    forall i, j | 0 <= i < j < |r| ensures !less(r[j], r[i]) {
      InsertKeepsOrder(less, s, k, x, i, j);
    }
  }

  method Sort<T(!new)>(less: (T, T) -> bool, s: seq<T>) returns (r: seq<T>)
    requires Ranks(less)
    ensures SortedBy(less, r)
    ensures multiset(r) == multiset(s)
  {
    hide Ranks, SortedBy;
    r := [];
    NothingToSort(less);
    for i := 0 to |s|
      invariant SortedBy(less, r)
      invariant multiset(r) == multiset(s[..i])
    {
      r := Insert(less, r, s[i]);
      assert s[..i + 1] == s[..i] + [s[i]];
    }
    assert s[..|s|] == s;
  }

  lemma {:induction false} NothingToSort<T>(less: (T, T) -> bool)
    ensures SortedBy(less, [])
  {
  }
}
