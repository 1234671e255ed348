/** Stores and the write caches that are stacked on them. */
module Caches {
  import opened Wrappers

  type Store = map<string, string>

  /** What a cache holds back: a value for each written key, None for each deleted one. */
  type Writes = map<string, Option<string>>

  /** What is read through a cache, and what its base becomes when the cache is written. */
  function Apply(s: Store, w: Writes): Store {
    map k | k in s.Keys + w.Keys && (k in w ==> w[k].Some?) :: if k in w then w[k].value else s[k]
  }

  /** Writing a cache into the cache below it. */
  function Merge(below: Writes, above: Writes): Writes {
    below + above
  }

  /** Writing a cache into the one below changes nothing that is read through both. */
  lemma {:induction false} ApplyMerge(s: Store, below: Writes, above: Writes)
    ensures Apply(s, Merge(below, above)) == Apply(Apply(s, below), above)
  {
  }

  lemma {:induction false} ApplyNothing(s: Store)
    ensures Apply(s, map[]) == s
  {
  }

  /** A single write sets its key, a single deletion removes it; with merging this determines every cache. */
  lemma {:induction false} ApplyOne(s: Store, k: string, v: string)
    ensures Apply(s, map[k := Some(v)]) == s[k := v]
    ensures Apply(s, map[k := None]) == s - {k}
  {
  }
}
