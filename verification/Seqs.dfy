/** Small facts about sequences and the multisets of their elements. */
module Seqs {

  function RemoveAt<T>(s: seq<T>, k: nat): (r: seq<T>)
    requires k < |s|
    ensures |r| == |s| - 1
  {
    s[..k] + s[k + 1..]
  }

  lemma {:induction false} RemoveAtContents<T>(s: seq<T>, k: nat)
    requires k < |s|
    ensures multiset(s) == multiset(RemoveAt(s, k)) + multiset{s[k]}
    ensures multiset(RemoveAt(s, k)) == multiset(s) - multiset{s[k]}
  {
    assert s == s[..k] + [s[k]] + s[k + 1..];
  }

  lemma {:induction false} TailContents<T>(s: seq<T>)
    requires s != []
    ensures multiset(s[1..]) == multiset(s) - multiset{s[0]}
    ensures multiset(s) == multiset(s[1..]) + multiset{s[0]}
  {
    assert s == [s[0]] + s[1..];
  }

  /** A permutation of a nonempty sequence holds its head somewhere; both remainders permute each other. */
  lemma {:induction false} FindHead<T>(a: seq<T>, b: seq<T>) returns (k: nat)
    requires multiset(a) == multiset(b) && a != []
    ensures k < |b| && b[k] == a[0]
    ensures multiset(a[1..]) == multiset(RemoveAt(b, k))
  {
    assert a[0] in multiset(b);
    k :| 0 <= k < |b| && b[k] == a[0];
    TailContents(a);
    RemoveAtContents(b, k);
  }

  lemma {:induction false} PermutationLength<T>(a: seq<T>, b: seq<T>)
    requires multiset(a) == multiset(b)
    ensures |a| == |b|
  {
    assert |multiset(a)| == |a|;
    assert |multiset(b)| == |b|;
  }

  lemma {:induction false} PermutationMember<T>(a: seq<T>, b: seq<T>, i: nat) returns (j: nat)
    requires multiset(a) == multiset(b) && i < |a|
    ensures j < |b| && b[j] == a[i]
  {
    assert a[i] in multiset(b);
    j :| 0 <= j < |b| && b[j] == a[i];
  }

  /** Two places of one list have two places in the other. */
  lemma {:induction false} PermutationPair<T>(a: seq<T>, b: seq<T>, i: nat, j: nat) returns (k: nat, l: nat)
    requires multiset(a) == multiset(b) && i < j < |a|
    ensures k < |b| && l < |b| && k != l && b[k] == a[i] && b[l] == a[j]
  {
    k := PermutationMember(a, b, i);
    var x, y := RemoveAt(a, i), RemoveAt(b, k);
    RemoveAtContents(a, i);
    RemoveAtContents(b, k);
    assert x[j - 1] == a[j];
    var m := PermutationMember(x, y, j - 1);
    l := if m < k then m else m + 1;
    assert y[m] == b[l];
  }

  /** Two lists without repetition and with the same elements permute each other. */
  lemma {:induction false} SameElements<T(!new)>(a: seq<T>, b: seq<T>)
    requires forall i :: 0 <= i < |a| ==> multiset(a)[a[i]] == 1 && a[i] in b
    requires forall i :: 0 <= i < |b| ==> multiset(b)[b[i]] == 1 && b[i] in a
    ensures multiset(a) == multiset(b)
  {
    forall x ensures multiset(a)[x] == multiset(b)[x] {
      if x in a {
        var i :| 0 <= i < |a| && a[i] == x;
        var j :| 0 <= j < |b| && b[j] == x;
      } else {
        assert x !in b;
      }
    }
  }

  lemma {:induction false} InsertContents<T>(s: seq<T>, k: nat, x: T)
    requires k <= |s|
    ensures multiset(s[..k] + [x] + s[k..]) == multiset(s) + multiset{x}
  {
    assert s == s[..k] + s[k..];
  }
}
