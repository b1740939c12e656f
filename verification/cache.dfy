/**
 * The fail-open Redis cache, as an abstract state.
 *
 * `enabled` is false when the connection probe at start-up failed; the
 * layer then stays disabled for the life of the process. `snapshots` holds
 * the values of the `post:{id}:content` keys and `counters` those of the
 * `post:{id}:views` keys; indexing both by the post id is sound because the
 * two key families are injective and disjoint (`CacheKeys.KeysInjectiveAndDisjoint`).
 *
 * Every operation takes `fault`: whether the transport raises a connection
 * or timeout error on this call. A fault is swallowed and yields the
 * operation's fallback.
 */
module PostCache {
  import opened Wrappers
  import opened Models

  /** Time to live of a content snapshot, in seconds; expiry itself is not modelled. */
  const CacheTtl := 3600

  datatype Cache = Cache(enabled: bool, snapshots: map<int, Post>, counters: map<int, nat>)

  /** The counter for `postId`, an absent key counting as 0 (Redis INCR and GET semantics). */
  function Counter(c: Cache, postId: int): nat {
    if postId in c.counters then c.counters[postId] else 0
  }

  /** `cache_post`: stores the snapshot, or does nothing when disabled or on a fault. */
  function CachePost(c: Cache, postId: int, snapshot: Post, fault: bool): (c': Cache)
    ensures c'.enabled == c.enabled && c'.counters == c.counters
    ensures !c.enabled || fault ==> c' == c
    ensures c.enabled && !fault ==> postId in c'.snapshots && c'.snapshots[postId] == snapshot
    ensures forall k :: k != postId ==> (k in c'.snapshots <==> k in c.snapshots)
    ensures forall k :: k != postId && k in c.snapshots ==> c'.snapshots[k] == c.snapshots[k]
  {
    if !c.enabled || fault then c else c.(snapshots := c.snapshots[postId := snapshot])
  }

  /** `get_cached_post`: the snapshot, or a miss when disabled, on a fault or when the key is absent. */
  function GetCachedPost(c: Cache, postId: int, fault: bool): (r: Option<Post>)
    ensures r.Some? <==> c.enabled && !fault && postId in c.snapshots
    ensures r.Some? ==> r.value == c.snapshots[postId]
  {
    if !c.enabled || fault then None
    else if postId in c.snapshots then Some(c.snapshots[postId])
    else None
  }

  /** `invalidate_post_cache`: deletes the content key only. */
  function InvalidatePostCache(c: Cache, postId: int, fault: bool): (c': Cache)
    ensures c'.enabled == c.enabled && c'.counters == c.counters
    ensures !c.enabled || fault ==> c' == c
    ensures c.enabled && !fault ==> postId !in c'.snapshots
    ensures forall k :: k != postId ==> (k in c'.snapshots <==> k in c.snapshots)
    ensures forall k :: k != postId && k in c.snapshots ==> c'.snapshots[k] == c.snapshots[k]
  {
    if !c.enabled || fault then c else c.(snapshots := c.snapshots - {postId})
  }

  /** The new cache state and the value `increment_view_count` returns. */
  datatype Counted = Counted(cache: Cache, views: nat)

  /** `increment_view_count`: INCR on the view key, or 0 without any change when disabled or on a fault. */
  function IncrementViewCount(c: Cache, postId: int, fault: bool): (r: Counted)
    ensures r.cache.enabled == c.enabled && r.cache.snapshots == c.snapshots
    ensures !c.enabled || fault ==> r == Counted(c, 0)
    ensures c.enabled && !fault ==> r.views == Counter(c, postId) + 1 && Counter(r.cache, postId) == r.views
    ensures forall k :: k != postId ==> (k in r.cache.counters <==> k in c.counters)
    ensures forall k :: k != postId && k in c.counters ==> r.cache.counters[k] == c.counters[k]
  {
    if !c.enabled || fault then Counted(c, 0)
    else
      var n := Counter(c, postId) + 1;
      Counted(c.(counters := c.counters[postId := n]), n)
  }

  /** `get_view_count`: the stored counter, or 0 when disabled, absent or on a fault. */
  function GetViewCount(c: Cache, postId: int, fault: bool): (n: nat)
    ensures !c.enabled || fault || postId !in c.counters ==> n == 0
    ensures c.enabled && !fault && postId in c.counters ==> n == c.counters[postId]
  {
    if !c.enabled || fault then 0 else Counter(c, postId)
  }

  /** On a working cache, a snapshot just stored is the one read back. */
  lemma CacheThenGet(c: Cache, postId: int, snapshot: Post)
    requires c.enabled
    ensures GetCachedPost(CachePost(c, postId, snapshot, false), postId, false) == Some(snapshot)
  {
  }

  /** After an invalidation on a working cache the next lookup of that id misses; other lookups are unaffected. */
  lemma InvalidateThenGet(c: Cache, postId: int, other: int, fault: bool)
    requires c.enabled
    requires other != postId
    ensures GetCachedPost(InvalidatePostCache(c, postId, false), postId, fault) == None
    ensures GetCachedPost(InvalidatePostCache(c, postId, false), other, fault) == GetCachedPost(c, other, fault)
    ensures GetViewCount(InvalidatePostCache(c, postId, false), postId, fault) == GetViewCount(c, postId, fault)
  {
  }

  /** `get_view_count` reports what the last successful `increment_view_count` returned. */
  lemma IncrementThenGetViewCount(c: Cache, postId: int)
    requires c.enabled
    ensures GetViewCount(IncrementViewCount(c, postId, false).cache, postId, false)
            == IncrementViewCount(c, postId, false).views
            == GetViewCount(c, postId, false) + 1
  {
  }

  /** Any sequence of operations on a disabled cache leaves it as it was; reads miss and counters read 0. */
  lemma DisabledIsInert(c: Cache, postId: int, snapshot: Post, fault: bool)
    requires !c.enabled
    ensures CachePost(c, postId, snapshot, fault) == c
    ensures InvalidatePostCache(c, postId, fault) == c
    ensures IncrementViewCount(c, postId, fault) == Counted(c, 0)
    ensures GetCachedPost(c, postId, fault) == None
    ensures GetViewCount(c, postId, fault) == 0
  {
  }
}
