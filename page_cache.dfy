/** Caching whole web pages. A request is served from `cache:{hash}` when it is the page
    of an item among the 10000 most viewed, by rank in `viewed:` (which `update_token`
    lowers by one per view, so rank 0 is the most viewed item). The request's item id,
    whether it is dynamic, its hash and the page the handler renders are parameters. */
module PageCache {
  import opened Wrappers
  import opened Decimals
  import opened Ordering
  import opened Redis
  import Sessions

  /** Items ranked below this are cached. */
  const CACHED_RANKS := 10000

  function PageKey(hash: string): string { "cache:" + hash }

  /** `should_cache`: an item page, not dynamic, whose item ranks among the first 10000
      in `viewed:`. An item nobody viewed has no rank and is not cached. */
  function ShouldCache(db: Db, itemId: Option<nat>, dynamic: bool): bool {
    if itemId.None? || dynamic then false
    else
      var rank := ZRank(db, Sessions.ViewCountKey, Decimal(itemId.value));
      rank.Some? && rank.value < CACHED_RANKS
  }

  /** The members of `z` ranked ahead of `m`. */
  function Ahead(z: map<string, int>, m: string): set<string>
    requires m in z
  {
    set n | n in z && Precedes(z, n, m)
  }

  /** The decision only ever caches an item page that is not dynamic, and then exactly
      when fewer than 10000 viewed items rank ahead of it in `viewed:`. */
  lemma ShouldCacheExactly(db: Db, itemId: Option<nat>, dynamic: bool)
    ensures ShouldCache(db, itemId, dynamic) ==> itemId.Some? && !dynamic
    ensures itemId.Some? && !dynamic ==>
      var m := Decimal(itemId.value); var z := ZSetOf(db, Sessions.ViewCountKey);
      (ShouldCache(db, itemId, dynamic) <==> m in z && |Ahead(z, m)| < CACHED_RANKS)
  {
    if itemId.Some? && Decimal(itemId.value) in ZSetOf(db, Sessions.ViewCountKey) {
      RankCountsAhead(ZSetOf(db, Sessions.ViewCountKey), Decimal(itemId.value));
    }
  }

  /** A member's rank is the number of members ranked ahead of it. */
  lemma RankCountsAhead(z: map<string, int>, m: string)
    requires m in z
    ensures RankIn(z, m) == |Ahead(z, m)|
  {
    var o := Ordered(z);
    var r := RankIn(z, m);
    AheadIsPrefix(z, m);
    OrderedDistinct(z);
    Sessions.DistinctCard(o[..r]);
  }

  /** The members ranked ahead of `m` are those listed before it. */
  lemma AheadIsPrefix(z: map<string, int>, m: string)
    requires m in z
    ensures Elems(Ordered(z)[..RankIn(z, m)]) == Ahead(z, m)
  {
    var o := Ordered(z);
    var r := RankIn(z, m);
    forall n | n in Elems(o[..r]) ensures n in Ahead(z, m) {
      var i :| 0 <= i < r && o[..r][i] == n;
      ListedBeforeIsAhead(z, i, r);
    }
    forall n | n in Ahead(z, m) ensures n in Elems(o[..r]) {
      RankOrder(z, n, m);
      assert o[..r][RankIn(z, n)] == n;
    }
  }

  /** A member listed before another is ranked ahead of it. */
  lemma ListedBeforeIsAhead(z: map<string, int>, i: nat, j: nat)
    requires i < j < |Ordered(z)|
    ensures Ordered(z)[i] in z && Ordered(z)[j] in z && Precedes(z, Ordered(z)[i], Ordered(z)[j])
  {
    OrderedSorted(z);
  }

  /** An item viewed more than a cached one (a lower `viewed:` score, or the same score
      and a smaller member) is cached too. */
  lemma MoreViewedIsCached(db: Db, a: nat, b: nat)
    requires ShouldCache(db, Some(a), false)
    requires Decimal(b) in ZSetOf(db, Sessions.ViewCountKey)
    requires Precedes(ZSetOf(db, Sessions.ViewCountKey), Decimal(b), Decimal(a))
    ensures ShouldCache(db, Some(b), false)
  {
    var z := ZSetOf(db, Sessions.ViewCountKey);
    RankOrder(z, Decimal(b), Decimal(a));
  }

  /** Rank follows the order of the set. */
  lemma RankOrder(z: map<string, int>, x: string, y: string)
    requires x in z && y in z && Precedes(z, x, y)
    ensures RankIn(z, x) < RankIn(z, y)
  {
    OrderedSorted(z);
    PrecedesStrict(z, x, y, y);
  }

  /** A rank names one member. */
  lemma RankUnique(z: map<string, int>, m: string, i: nat)
    requires m in z && i < |Ordered(z)| && Ordered(z)[i] == m
    ensures RankIn(z, m) == i
  {
    OrderedDistinct(z);
  }

  /** The cached items are the first `min(|viewed:|, 10000)` of `viewed:` in rank order,
      so at most 10000 item pages are ever cached, and when no more than 10000 items were
      viewed every one of them is. */
  lemma CachedItems(db: Db)
    ensures var z := ZSetOf(db, Sessions.ViewCountKey);
      var n := if |z| < CACHED_RANKS then |z| else CACHED_RANKS;
      var cached := set m | m in z && RankIn(z, m) < CACHED_RANKS;
      && cached == Elems(Ordered(z)[..n])
      && |cached| == n
  {
    var z := ZSetOf(db, Sessions.ViewCountKey);
    var o := Ordered(z);
    var n := if |z| < CACHED_RANKS then |z| else CACHED_RANKS;
    var cached := set m | m in z && RankIn(z, m) < CACHED_RANKS;
    forall m | m in Elems(o[..n]) ensures m in cached {
      var i :| 0 <= i < n && o[..n][i] == m;
      RankUnique(z, m, i);
    }
    forall m | m in cached ensures m in Elems(o[..n]) {
      assert o[..n][RankIn(z, m)] == m;
    }
    OrderedDistinct(z);
    Sessions.DistinctCard(o[..n]);
  }

  /** `cache_request`. A request that should not be cached is answered by the handler. A
      cached one is answered from `cache:{hash}`: the read's reply is wrapped in `Some`
      before it is tested, so the branch that renders and stores a missing page never
      runs, and a missing page is an error. The request never writes to the store. */
  method CacheRequest(store: Store, itemId: Option<nat>, dynamic: bool, hash: string, rendered: string)
    returns (r: Result<string>)
    ensures !ShouldCache(store.State(), itemId, dynamic) ==> r == Ok(rendered)
    ensures ShouldCache(store.State(), itemId, dynamic) ==>
      (r.Ok? <==> Get(store.State(), PageKey(hash)).Some?)
    ensures ShouldCache(store.State(), itemId, dynamic) && r.Ok? ==> r.value == Get(store.State(), PageKey(hash)).value
    ensures r.Err? ==> r.error == NilReply
  {
    if !ShouldCache(store.State(), itemId, dynamic) {
      return Ok(rendered);
    }
    var pageKey := "cache:" + hash;
    var page := Get(store.State(), pageKey);
    if page.None? {
      return Err(NilReply);
    }
    var content := Some(page.value);
    r := Ok(content.value);
  }
}
