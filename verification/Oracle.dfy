/**
  Oracle prices: one post per oracle, asset and block, and the median over the posts.
 */
module Oracle {
  import opened Wrappers
  import opened Seqs
  import Sorting

  datatype Post = Post(oracle: nat, ask: int, bid: int, receivedAt: int)

  datatype CurrentPrice = CurrentPrice(ask: int, bid: int, receivedAt: int)

  // ---- order statistics without sorting ----

  function CountAtMost(values: seq<int>, x: int): nat {
    if values == [] then 0
    else (if values[0] <= x then 1 else 0) + CountAtMost(values[1..], x)
  }

  /** v is the value of rank k (counting from zero): more than k values are at most v, at most k are below it. */
  ghost predicate IsRank(values: seq<int>, k: nat, v: int) {
    CountAtMost(values, v - 1) <= k < CountAtMost(values, v)
  }

  /** Integer division by two that truncates toward zero. */
  function Half(x: int): (h: int)
    ensures 2 * h == x || (x > 0 && 2 * h == x - 1) || (x < 0 && 2 * h == x + 1)
  {
    if x >= 0 then x / 2 else -(-x / 2)
  }

  /** The lower and upper middle values; with an odd number of values they are the same one. */
  ghost predicate IsMiddle(values: seq<int>, a: int, b: int) {
    |values| > 0 && IsRank(values, (|values| - 1) / 2, a) && IsRank(values, |values| / 2, b)
  }

  ghost predicate IsMedian(values: seq<int>, m: int) {
    exists a, b :: IsMiddle(values, a, b) && m == Half(a + b)
  }

  lemma {:induction false} CountMonotone(values: seq<int>, x: int, y: int)
    requires x <= y
    ensures CountAtMost(values, x) <= CountAtMost(values, y) <= |values|
  {
    if values != [] { CountMonotone(values[1..], x, y); }
  }

  lemma {:induction false} CountConcat(a: seq<int>, b: seq<int>, x: int)
    ensures CountAtMost(a + b, x) == CountAtMost(a, x) + CountAtMost(b, x)
  {
    if a == [] {
      assert a + b == b;
    } else {
      assert (a + b)[1..] == a[1..] + b;
      CountConcat(a[1..], b, x);
    }
  }

  lemma {:induction false} CountPermutation(a: seq<int>, b: seq<int>, x: int)
    requires multiset(a) == multiset(b)
    ensures CountAtMost(a, x) == CountAtMost(b, x)
  {
    PermutationLength(a, b);
    if a != [] {
      var k := FindHead(a, b);
      CountPermutation(a[1..], RemoveAt(b, k), x);
      CountConcat(b[..k], b[k + 1..], x);
      CountConcat(b[..k], b[k..], x);
      assert b == b[..k] + b[k..];
      assert b[k..][1..] == b[k + 1..];
    }
  }

  /** A rank determines its value, so a median is unique. */
  lemma {:induction false} RankUnique(values: seq<int>, k: nat, v: int, w: int)
    requires IsRank(values, k, v) && IsRank(values, k, w)
    ensures v == w
  {
    if v < w { CountMonotone(values, v, w - 1); }
    if w < v { CountMonotone(values, w, v - 1); }
  }

  lemma {:induction false} MedianUnique(values: seq<int>, m: int, n: int)
    requires IsMedian(values, m) && IsMedian(values, n)
    ensures m == n
  {
    hide CountAtMost;
    var a, b :| IsMiddle(values, a, b) && m == Half(a + b);
    var c, d :| IsMiddle(values, c, d) && n == Half(c + d);
    RankUnique(values, (|values| - 1) / 2, a, c);
    RankUnique(values, |values| / 2, b, d);
  }

  // ---- what the median promises ----

  /** Posting order does not matter. */
  lemma {:induction false} MedianPermutation(a: seq<int>, b: seq<int>, m: int)
    requires multiset(a) == multiset(b) && IsMedian(a, m)
    ensures IsMedian(b, m)
  {
    PermutationLength(a, b);
    var p, q :| IsMiddle(a, p, q) && m == Half(p + q);
    CountPermutation(a, b, p);
    CountPermutation(a, b, p - 1);
    CountPermutation(a, b, q);
    CountPermutation(a, b, q - 1);
    assert IsMiddle(b, p, q);
  }

  /** The number of values outside [lo, hi]. */
  function CountOutside(values: seq<int>, lo: int, hi: int): nat {
    if values == [] then 0
    else (if lo <= values[0] <= hi then 0 else 1) + CountOutside(values[1..], lo, hi)
  }

  lemma {:induction false} OutsideSplits(values: seq<int>, lo: int, hi: int)
    requires lo <= hi
    ensures CountOutside(values, lo, hi) == CountAtMost(values, lo - 1) + (|values| - CountAtMost(values, hi))
  {
    if values != [] { OutsideSplits(values[1..], lo, hi); }
  }

  /** A minority of posts, however extreme, cannot move the median out of the range of the others. */
  lemma {:induction false} MedianRobust(values: seq<int>, m: int, lo: int, hi: int)
    requires IsMedian(values, m) && lo <= hi
    requires 2 * CountOutside(values, lo, hi) < |values|
    ensures lo <= m <= hi
  {
    hide CountAtMost, CountOutside;
    OutsideSplits(values, lo, hi);
    CountMonotone(values, lo - 1, hi);
    var a, b :| IsMiddle(values, a, b) && m == Half(a + b);
    RankInside(values, (|values| - 1) / 2, a, lo, hi);
    RankInside(values, |values| / 2, b, lo, hi);
  }

  lemma {:induction false} RankInside(values: seq<int>, k: nat, v: int, lo: int, hi: int)
    requires IsRank(values, k, v)
    requires CountAtMost(values, lo - 1) <= k < CountAtMost(values, hi)
    ensures lo <= v <= hi
  {
    if v < lo { CountMonotone(values, v, lo - 1); }
    if v > hi { CountMonotone(values, hi, v - 1); }
  }

  /** If every post bids at most what it asks, the median bid is at most the median ask. */
  lemma {:induction false} MedianOrdered(bids: seq<int>, asks: seq<int>, bid: int, ask: int)
    requires |bids| == |asks| && forall i :: 0 <= i < |bids| ==> bids[i] <= asks[i]
    requires IsMedian(bids, bid) && IsMedian(asks, ask)
    ensures bid <= ask
  {
    hide CountAtMost;
    var a, b :| IsMiddle(bids, a, b) && bid == Half(a + b);
    var c, d :| IsMiddle(asks, c, d) && ask == Half(c + d);
    RankOrdered(bids, asks, (|bids| - 1) / 2, a, c);
    RankOrdered(bids, asks, |bids| / 2, b, d);
  }

  lemma {:induction false} RankOrdered(bids: seq<int>, asks: seq<int>, k: nat, b: int, a: int)
    requires |bids| == |asks| && forall i :: 0 <= i < |bids| ==> bids[i] <= asks[i]
    requires IsRank(bids, k, b) && IsRank(asks, k, a)
    ensures b <= a
  {
    CountOrdered(bids, asks, a);
    if a < b { CountMonotone(bids, a, b - 1); }
  }

  lemma {:induction false} CountOrdered(bids: seq<int>, asks: seq<int>, x: int)
    requires |bids| == |asks| && forall i :: 0 <= i < |bids| ==> bids[i] <= asks[i]
    ensures CountAtMost(bids, x) >= CountAtMost(asks, x)
  {
    if bids != [] { CountOrdered(bids[1..], asks[1..], x); }
  }

  // ---- computing it by sorting ----

  function Key(p: Post, byAsk: bool): int {
    if byAsk then p.ask else p.bid
  }

  function Keys(posts: seq<Post>, byAsk: bool): (r: seq<int>)
    ensures |r| == |posts|
    ensures forall i :: 0 <= i < |posts| ==> r[i] == Key(posts[i], byAsk)
  {
    if posts == [] then [] else [Key(posts[0], byAsk)] + Keys(posts[1..], byAsk)
  }

  ghost predicate SortedBy(posts: seq<Post>, byAsk: bool) {
    forall i, j :: 0 <= i < j < |posts| ==> Key(posts[i], byAsk) <= Key(posts[j], byAsk)
  }

  lemma {:induction false} KeysPermutation(a: seq<Post>, b: seq<Post>, byAsk: bool)
    requires multiset(a) == multiset(b)
    ensures multiset(Keys(a, byAsk)) == multiset(Keys(b, byAsk))
  {
    PermutationLength(a, b);
    if a != [] {
      var k := FindHead(a, b);
      KeysPermutation(a[1..], RemoveAt(b, k), byAsk);
      KeysTail(a, byAsk);
      KeysRemoveAt(b, k, byAsk);
      hide Keys, RemoveAt;
    }
  }

  lemma {:induction false} KeysTail(a: seq<Post>, byAsk: bool)
    requires a != []
    ensures multiset(Keys(a, byAsk)) == multiset(Keys(a[1..], byAsk)) + multiset{Key(a[0], byAsk)}
  {
    var ka := Keys(a, byAsk);
    assert ka[1..] == Keys(a[1..], byAsk);
    TailContents(ka);
  }

  lemma {:induction false} KeysRemoveAt(b: seq<Post>, k: nat, byAsk: bool)
    requires k < |b|
    ensures multiset(Keys(b, byAsk)) == multiset(Keys(RemoveAt(b, k), byAsk)) + multiset{Key(b[k], byAsk)}
  {
    var kb := Keys(b, byAsk);
    assert Keys(RemoveAt(b, k), byAsk) == RemoveAt(kb, k);
    RemoveAtContents(kb, k);
  }

  /** In a sorted list the position is the rank. */
  lemma {:induction false} SortedCount(s: seq<int>, k: nat, x: int)
    requires forall i, j :: 0 <= i < j < |s| ==> s[i] <= s[j]
    requires k < |s|
    ensures s[k] <= x <==> CountAtMost(s, x) > k
  {
    if s[0] > x {
      CountNone(s, x);
    } else if k > 0 {
      SortedCount(s[1..], k - 1, x);
    }
  }

  lemma {:induction false} CountNone(s: seq<int>, x: int)
    requires forall i :: 0 <= i < |s| ==> s[i] > x
    ensures CountAtMost(s, x) == 0
  {
    if s != [] { CountNone(s[1..], x); }
  }

  lemma {:induction false} SortedRank(posts: seq<Post>, sorted: seq<Post>, byAsk: bool, k: nat)
    requires multiset(sorted) == multiset(posts) && SortedBy(sorted, byAsk) && k < |sorted|
    ensures IsRank(Keys(posts, byAsk), k, Key(sorted[k], byAsk))
  {
    hide CountAtMost, SortedBy, Keys;
    var s := Keys(sorted, byAsk);
    var v := Key(sorted[k], byAsk);
    KeysPermutation(sorted, posts, byAsk);
    CountPermutation(s, Keys(posts, byAsk), v);
    CountPermutation(s, Keys(posts, byAsk), v - 1);
    SortedKeys(sorted, byAsk);
    SortedCount(s, k, v);
    SortedCount(s, k, v - 1);
  }

  lemma {:induction false} SortedKeys(posts: seq<Post>, byAsk: bool)
    requires SortedBy(posts, byAsk)
    ensures var s := Keys(posts, byAsk); forall i, j :: 0 <= i < j < |s| ==> s[i] <= s[j]
  {
  }

  /** `sort.Slice` by ask or by bid. */
  method SortPosts(posts: seq<Post>, byAsk: bool) returns (r: seq<Post>)
    ensures multiset(r) == multiset(posts) && SortedBy(r, byAsk)
  {
    var less := (a: Post, b: Post) => Key(a, byAsk) < Key(b, byAsk);
    r := Sorting.Sort(less, posts);
    forall i, j | 0 <= i < j < |r| ensures Key(r[i], byAsk) <= Key(r[j], byAsk) {
      assert !less(r[j], r[i]);
    }
  }

  /** What a list of posts is worth: zero without posts, the medians otherwise. */
  ghost predicate IsPriceOf(posts: seq<Post>, ask: int, bid: int) {
    if posts == [] then ask == 0 && bid == 0
    else IsMedian(Keys(posts, true), ask) && IsMedian(Keys(posts, false), bid)
  }

  /** When the price was received: the block time if it is an average, else the time of a post that asks it. */
  ghost predicate IsTimeOf(posts: seq<Post>, blockTime: int, ask: int, receivedAt: int) {
    if |posts| % 2 == 0 then receivedAt == blockTime
    else exists i :: 0 <= i < |posts| && posts[i].ask == ask && posts[i].receivedAt == receivedAt
  }

  /** Sorting by a key puts the middle values in the middle. */
  lemma {:induction false} SortedMiddle(posts: seq<Post>, sorted: seq<Post>, byAsk: bool)
    requires multiset(sorted) == multiset(posts) && SortedBy(sorted, byAsk) && |posts| > 0
    ensures |sorted| == |posts|
    ensures var l := |posts|;
            IsMedian(Keys(posts, byAsk), Half(Key(sorted[(l - 1) / 2], byAsk) + Key(sorted[l / 2], byAsk)))
  {
    PermutationLength(sorted, posts);
    var l := |posts|;
    SortedRank(posts, sorted, byAsk, (l - 1) / 2);
    SortedRank(posts, sorted, byAsk, l / 2);
    assert IsMiddle(Keys(posts, byAsk), Key(sorted[(l - 1) / 2], byAsk), Key(sorted[l / 2], byAsk));
  }

  method MedianPrices(posts: seq<Post>, blockTime: int) returns (ask: int, bid: int, receivedAt: int)
    ensures IsPriceOf(posts, ask, bid)
    ensures |posts| > 0 ==> IsTimeOf(posts, blockTime, ask, receivedAt)
  {
    hide IsMedian, CountAtMost, Keys, SortedBy;
    var l := |posts|;
    if l == 0 {
      return 0, 0, 0;
    }
    if l == 1 {
      SortedMiddle(posts, posts, true);
      SortedMiddle(posts, posts, false);
      return posts[0].ask, posts[0].bid, posts[0].receivedAt;
    }
    var byAsk := SortPosts(posts, true);
    var byBid := SortPosts(posts, false);
    SortedMiddle(posts, byAsk, true);
    SortedMiddle(posts, byBid, false);
    if l % 2 == 0 {
      ask := Half(byAsk[l / 2 - 1].ask + byAsk[l / 2].ask);
      bid := Half(byBid[l / 2 - 1].bid + byBid[l / 2].bid);
      receivedAt := blockTime;
    } else {
      ask, bid, receivedAt := byAsk[l / 2].ask, byBid[l / 2].bid, byAsk[l / 2].receivedAt;
      var i := PermutationMember(byAsk, posts, l / 2);
    }
  }

  // ---- posting ----

  ghost predicate OnePerOracle(posts: seq<Post>) {
    forall i, j :: 0 <= i < j < |posts| ==> posts[i].oracle != posts[j].oracle
  }

  /** The list with one oracle's post replaced in place, or added at the end. */
  function SetPost(posts: seq<Post>, p: Post): (r: seq<Post>) {
    if posts == [] then [p]
    else if posts[0].oracle == p.oracle then [p] + posts[1..]
    else [posts[0]] + SetPost(posts[1..], p)
  }

  /** Each oracle counts once: its latest post, and nobody else's post changes. */
  lemma {:induction false} SetPostReplaces(posts: seq<Post>, p: Post)
    requires OnePerOracle(posts)
    ensures var r := SetPost(posts, p);
            && OnePerOracle(r)
            && (forall q :: q in r <==> q == p || (q in posts && q.oracle != p.oracle))
  {
    if posts != [] {
      var tail := posts[1..];
      SetPostReplaces(tail, p);
      var r := SetPost(posts, p);
      assert posts == [posts[0]] + tail;
      if posts[0].oracle == p.oracle {
        forall i, j | 0 <= i < j < |r| ensures r[i].oracle != r[j].oracle {
          assert posts[i].oracle != posts[j].oracle;
        }
      } else {
        var rest := SetPost(tail, p);
        forall j | 0 <= j < |rest| ensures rest[j].oracle != posts[0].oracle {
          assert rest[j] in rest;
        }
      }
    }
  }

  /** Two oracles may post in either order: the lists hold the same posts. */
  lemma {:induction false} PostsCommute(posts: seq<Post>, p: Post, q: Post)
    requires OnePerOracle(posts) && p.oracle != q.oracle
    ensures multiset(SetPost(SetPost(posts, p), q)) == multiset(SetPost(SetPost(posts, q), p))
  {
    if posts == [] {
      SetPostCons(p, [], q);
      SetPostCons(q, [], p);
      assert [p] + [q] == [p, q] && [q] + [p] == [q, p];
    } else {
      var h, tail := posts[0], posts[1..];
      assert posts == [h] + tail;
      if h.oracle == p.oracle {
        SetPostCons(p, tail, q);
        SetPostCons(h, SetPost(tail, q), p);
      } else if h.oracle == q.oracle {
        SetPostCons(q, tail, p);
        SetPostCons(h, SetPost(tail, p), q);
      } else {
        PostsCommute(tail, p, q);
        SetPostCons(h, SetPost(tail, p), q);
        SetPostCons(h, SetPost(tail, q), p);
      }
    }
  }

  // ---- whole sequences of posts ----

  /** The stored list after a sequence of posts. */
  function PostAll(posts: seq<Post>, sequence: seq<Post>): seq<Post>
    decreases |sequence|
  {
    if sequence == [] then posts else PostAll(SetPost(posts, sequence[0]), sequence[1..])
  }

  /** The last post of an oracle in a sequence. */
  function Latest(sequence: seq<Post>, oracle: nat): Option<Post> {
    if sequence == [] then None
    else
      var last := sequence[|sequence| - 1];
      if last.oracle == oracle then Some(last) else Latest(sequence[..|sequence| - 1], oracle)
  }

  lemma {:induction false} LatestCons(p: Post, rest: seq<Post>, oracle: nat)
    ensures Latest([p] + rest, oracle) ==
            if Latest(rest, oracle).Some? then Latest(rest, oracle) else if p.oracle == oracle then Some(p) else None
    decreases |rest|
  {
    var all := [p] + rest;
    if rest == [] {
      assert all == [p];
      assert [p][..0] == [];
    } else {
      var n := |rest| - 1;
      assert all[..n + 1] == [p] + rest[..n];
      LatestCons(p, rest[..n], oracle);
    }
  }

  /** The list holds exactly the latest post of each oracle, over what was there before. */
  lemma {:induction false} PostAllHolds(posts: seq<Post>, sequence: seq<Post>)
    requires OnePerOracle(posts)
    ensures OnePerOracle(PostAll(posts, sequence))
    ensures forall q :: q in PostAll(posts, sequence) <==>
              Latest(sequence, q.oracle) == Some(q) || (Latest(sequence, q.oracle) == None && q in posts)
    decreases |sequence|
  {
    if sequence != [] {
      hide OnePerOracle, SetPost;
      var p, rest := sequence[0], sequence[1..];
      assert sequence == [p] + rest;
      SetPostReplaces(posts, p);
      PostAllHolds(SetPost(posts, p), rest);
      forall q: Post ensures q in PostAll(posts, sequence) <==>
          Latest(sequence, q.oracle) == Some(q) || (Latest(sequence, q.oracle) == None && q in posts)
      {
        hide Latest;
        LatestCons(p, rest, q.oracle);
      }
    }
  }

  lemma {:induction false} OnceEach(posts: seq<Post>, i: nat)
    requires OnePerOracle(posts) && i < |posts|
    ensures multiset(posts)[posts[i]] == 1
  {
    var rest := RemoveAt(posts, i);
    RemoveAtContents(posts, i);
    forall j | 0 <= j < |rest| ensures rest[j] != posts[i] {
      assert rest[j] == posts[if j < i then j else j + 1];
    }
    assert posts[i] !in multiset(rest);
  }

  /**
    Posting order does not matter: two sequences with the same latest post of every oracle, in
    particular two interleavings of the same posts of each oracle, give the same posts and so
    the same prices.
   */
  lemma {:induction false} SequencesAgree(x: seq<Post>, y: seq<Post>, ask: int, bid: int)
    requires forall o: nat :: Latest(x, o) == Latest(y, o)
    ensures multiset(PostAll([], x)) == multiset(PostAll([], y))
    ensures IsPriceOf(PostAll([], x), ask, bid) <==> IsPriceOf(PostAll([], y), ask, bid)
  {
    hide *;
    SamePosts(x, y);
    PriceOfPermutation(PostAll([], x), PostAll([], y), ask, bid);
  }

  lemma {:induction false} SamePosts(x: seq<Post>, y: seq<Post>)
    requires forall o: nat :: Latest(x, o) == Latest(y, o)
    ensures multiset(PostAll([], x)) == multiset(PostAll([], y))
  {
    hide PostAll, Latest;
    var a, b := PostAll([], x), PostAll([], y);
    PostAllHolds([], x);
    PostAllHolds([], y);
    hide OnePerOracle;
    forall i | 0 <= i < |a| ensures multiset(a)[a[i]] == 1 && a[i] in b {
      OnceEach(a, i);
      assert a[i] in a;
    }
    forall i | 0 <= i < |b| ensures multiset(b)[b[i]] == 1 && b[i] in a {
      OnceEach(b, i);
      assert b[i] in b;
    }
    SameElements(a, b);
  }

  lemma {:induction false} PriceOfPermutation(a: seq<Post>, b: seq<Post>, ask: int, bid: int)
    requires multiset(a) == multiset(b)
    ensures IsPriceOf(a, ask, bid) <==> IsPriceOf(b, ask, bid)
  {
    hide IsMedian, Keys;
    PermutationLength(a, b);
    if a != [] {
      KeysPermutation(a, b, true);
      KeysPermutation(a, b, false);
      MedianIff(Keys(a, true), Keys(b, true), ask);
      MedianIff(Keys(a, false), Keys(b, false), bid);
    }
  }

  lemma {:induction false} MedianIff(a: seq<int>, b: seq<int>, m: int)
    requires multiset(a) == multiset(b)
    ensures IsMedian(a, m) <==> IsMedian(b, m)
  {
    hide IsMedian;
    if IsMedian(a, m) { MedianPermutation(a, b, m); }
    if IsMedian(b, m) { MedianPermutation(b, a, m); }
  }

  lemma {:induction false} SetPostCons(h: Post, tail: seq<Post>, p: Post)
    ensures SetPost([h] + tail, p) == if h.oracle == p.oracle then [p] + tail else [h] + SetPost(tail, p)
  {
    assert ([h] + tail)[1..] == tail;
  }

  // ---- the keeper ----

  function Abs(x: int): int {
    if x < 0 then -x else x
  }

  /** One second in the time unit of timestamps. */
  const SECOND: int := 1_000_000_000

  function PostsAt(raw: map<(string, int), seq<Post>>, asset: string, height: int): seq<Post> {
    if (asset, height) in raw then raw[(asset, height)] else []
  }

  class Keeper {
    var rawPrices: map<(string, int), seq<Post>>
    var currentPrices: map<string, CurrentPrice>

    ghost predicate Valid()
      reads this
    {
      forall k :: k in rawPrices ==> OnePerOracle(rawPrices[k])
    }

    constructor ()
      ensures Valid() && rawPrices == map[] && currentPrices == map[]
    {
      rawPrices, currentPrices := map[], map[];
    }

    function GetRawPrices(asset: string, height: int): seq<Post>
      reads this
    {
      PostsAt(rawPrices, asset, height)
    }

    /** Replaces or adds the oracle's post for this asset and block, unless its timestamp is too far off. */
    method SetPrice(asset: string, height: int, blockTime: int, maxDiff: nat, p: Post) returns (ok: bool)
      requires Valid()
      modifies this`rawPrices
      ensures Valid()
      ensures ok <==> maxDiff == 0 || Abs(blockTime - p.receivedAt) <= maxDiff * SECOND
      ensures !ok ==> rawPrices == old(rawPrices)
      ensures ok ==> rawPrices == old(rawPrices)[(asset, height) := SetPost(old(GetRawPrices(asset, height)), p)]
    {
      if maxDiff > 0 && Abs(blockTime - p.receivedAt) > maxDiff * SECOND {
        return false;
      }
      var prices := GetRawPrices(asset, height);
      ghost var before := prices;
      var index, found := 0, false;
      for i := 0 to |prices|
        invariant !found
        invariant forall j :: 0 <= j < i ==> prices[j].oracle != p.oracle
      {
        if prices[i].oracle == p.oracle {
          index, found := i, true;
          break;
        }
      }
      if found {
        SetPostAt(prices, p, index);
        prices := prices[index := p];
      } else {
        SetPostAt(prices, p, |prices|);
        prices := prices + [p];
      }
      SetPostReplaces(before, p);
      rawPrices := rawPrices[(asset, height) := prices];
      return true;
    }

    /**
      Each listed asset gets the medians of this block's posts, unless one of them is zero or
      neither differs from the stored price; every other asset keeps its price.
     */
    method SetCurrentPrices(assets: seq<string>, height: int, blockTime: int)
      requires Valid()
      modifies this`currentPrices
      ensures Valid()
      ensures AllRepriced(old(currentPrices), currentPrices, rawPrices, height, blockTime, assets)
    {
      hide SamePrice, Repriced, IsPriceOf;
      NoneRepriced(currentPrices, rawPrices, height, blockTime);
      assert assets[..0] == [];
      for n := 0 to |assets|
        invariant Valid()
        invariant AllRepriced(old(currentPrices), currentPrices, rawPrices, height, blockTime, assets[..n])
      {
        var asset := assets[n];
        assert assets[..n + 1] == assets[..n] + [asset];
        var posts := GetRawPrices(asset, height);
        var ask, bid, receivedAt := MedianPrices(posts, blockTime);
        OneMoreRepriced(old(currentPrices), currentPrices, rawPrices, height, blockTime, assets[..n], asset, ask, bid, receivedAt);
        if ask == 0 || bid == 0 {
          continue;
        }
        if asset in currentPrices && currentPrices[asset].ask == ask && currentPrices[asset].bid == bid {
          continue;
        }
        currentPrices := currentPrices[asset := CurrentPrice(ask, bid, receivedAt)];
      }
      assert assets[..|assets|] == assets;
    }
  }

  ghost predicate AllRepriced(
      before: map<string, CurrentPrice>, after: map<string, CurrentPrice>,
      raw: map<(string, int), seq<Post>>, height: int, blockTime: int, assets: seq<string>)
  {
    forall a ::
      if a in assets then Repriced(before, after, a, PostsAt(raw, a, height), blockTime) else SamePrice(before, after, a)
  }

  lemma {:induction false} NoneRepriced(before: map<string, CurrentPrice>, raw: map<(string, int), seq<Post>>, height: int, blockTime: int)
    ensures AllRepriced(before, before, raw, height, blockTime, [])
  {
  }

  lemma {:induction false} OneMoreRepriced(
      before: map<string, CurrentPrice>, current: map<string, CurrentPrice>,
      raw: map<(string, int), seq<Post>>, height: int, blockTime: int, assets: seq<string>, asset: string, ask: int, bid: int, receivedAt: int)
    requires AllRepriced(before, current, raw, height, blockTime, assets)
    requires IsPriceOf(PostsAt(raw, asset, height), ask, bid)
    requires PostsAt(raw, asset, height) != [] ==> IsTimeOf(PostsAt(raw, asset, height), blockTime, ask, receivedAt)
    ensures AllRepriced(before, Reprice(current, asset, ask, bid, receivedAt), raw, height, blockTime, assets + [asset])
  {
    var after := Reprice(current, asset, ask, bid, receivedAt);
    forall a
      ensures if a in assets + [asset] then Repriced(before, after, a, PostsAt(raw, a, height), blockTime) else SamePrice(before, after, a)
    {
      if a == asset {
        RepriceStep(before, current, asset, PostsAt(raw, asset, height), blockTime, ask, bid, receivedAt, asset in assets);
      } else if a in assets {
        assert Repriced(before, current, a, PostsAt(raw, a, height), blockTime);
        var x, y :| IsPriceOf(PostsAt(raw, a, height), x, y) && RepricedTo(before, current, a, PostsAt(raw, a, height), blockTime, x, y);
        assert RepricedTo(before, after, a, PostsAt(raw, a, height), blockTime, x, y);
      } else {
        assert SamePrice(before, current, a);
      }
    }
  }

  /** A stored price changes when both medians are non-zero and one of them is new. */
  function Reprice(current: map<string, CurrentPrice>, asset: string, ask: int, bid: int, receivedAt: int): map<string, CurrentPrice> {
    if ask == 0 || bid == 0 || (asset in current && current[asset].ask == ask && current[asset].bid == bid) then current
    else current[asset := CurrentPrice(ask, bid, receivedAt)]
  }

  ghost predicate SamePrice(before: map<string, CurrentPrice>, after: map<string, CurrentPrice>, asset: string) {
    if asset in before then asset in after && after[asset] == before[asset] else asset !in after
  }

  ghost predicate RepricedTo(
      before: map<string, CurrentPrice>, after: map<string, CurrentPrice>, asset: string,
      posts: seq<Post>, blockTime: int, ask: int, bid: int)
  {
    if ask == 0 || bid == 0 || (asset in before && before[asset].ask == ask && before[asset].bid == bid)
    then SamePrice(before, after, asset)
    else asset in after && after[asset].ask == ask && after[asset].bid == bid
         && IsTimeOf(posts, blockTime, ask, after[asset].receivedAt)
  }

  ghost predicate Repriced(
      before: map<string, CurrentPrice>, after: map<string, CurrentPrice>, asset: string, posts: seq<Post>, blockTime: int)
  {
    exists ask, bid :: IsPriceOf(posts, ask, bid) && RepricedTo(before, after, asset, posts, blockTime, ask, bid)
  }

  lemma {:induction false} SetPostAt(posts: seq<Post>, p: Post, k: nat)
    requires k <= |posts|
    requires forall j :: 0 <= j < k ==> posts[j].oracle != p.oracle
    requires k < |posts| ==> posts[k].oracle == p.oracle
    ensures SetPost(posts, p) == if k < |posts| then posts[k := p] else posts + [p]
  {
    if posts != [] {
      if k == 0 {
        assert [p] + posts[1..] == posts[0 := p];
      } else {
        SetPostAt(posts[1..], p, k - 1);
        assert posts == [posts[0]] + posts[1..];
      }
    }
  }

  lemma {:induction false} PriceUnique(posts: seq<Post>, ask: int, bid: int, ask': int, bid': int)
    requires IsPriceOf(posts, ask, bid) && IsPriceOf(posts, ask', bid')
    ensures ask == ask' && bid == bid'
  {
    if posts != [] {
      MedianUnique(Keys(posts, true), ask, ask');
      MedianUnique(Keys(posts, false), bid, bid');
    }
  }

  /** One asset of the loop; an asset listed twice is not repriced twice, since medians are unique. */
  lemma {:induction false} RepriceStep(
      before: map<string, CurrentPrice>, current: map<string, CurrentPrice>, asset: string, posts: seq<Post>,
      blockTime: int, ask: int, bid: int, receivedAt: int, seen: bool)
    requires IsPriceOf(posts, ask, bid) && (posts != [] ==> IsTimeOf(posts, blockTime, ask, receivedAt))
    requires if seen then Repriced(before, current, asset, posts, blockTime) else SamePrice(before, current, asset)
    ensures Repriced(before, Reprice(current, asset, ask, bid, receivedAt), asset, posts, blockTime)
  {
    assert posts == [] ==> ask == 0;
    hide IsPriceOf;
    if seen {
      var a, b :| IsPriceOf(posts, a, b) && RepricedTo(before, current, asset, posts, blockTime, a, b);
      PriceUnique(posts, a, b, ask, bid);
    }
    assert RepricedTo(before, Reprice(current, asset, ask, bid, receivedAt), asset, posts, blockTime, ask, bid);
  }
}
