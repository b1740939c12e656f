/**
 * Properties of the handlers taken together: the invariants every request
 * keeps, and what a read observes after a create, an update or a delete.
 */
module ApiProperties {
  import opened Wrappers
  import opened Models
  import opened PostCache
  import opened PostStore
  import Api

  /**
   * A working cache never holds content that differs from the store: each
   * snapshot is the stored row of its id, up to `view_count` (which the
   * counter key supersedes on every read).
   */
  predicate Coherent(s: Store, c: Cache) {
    c.enabled ==>
      forall k :: k in c.snapshots ==>
        k in s.posts && c.snapshots[k] == s.posts[k].(viewCount := c.snapshots[k].viewCount)
  }

  /** Every request keeps the store valid, provided the clock has not run backwards. */
  lemma HandlePreservesValid(s: Store, c: Cache, req: Api.Request, env: Api.Env)
    requires Valid(s) && ClockNotBefore(s, env.now)
    ensures Valid(Api.Handle(s, c, req, env).store)
    ensures ClockNotBefore(Api.Handle(s, c, req, env).store, env.now)
  {
  }

  /**
   * Every request keeps a working cache coherent with the store, as long as
   * no invalidation is lost to a transport fault, no update's reload fails,
   * and no read whose lookup faulted also fails to re-cache. Each can leave
   * a stale snapshot:
   * - an update or a delete whose invalidation faults
   *   (`DeleteFaultLeavesStaleSnapshot`);
   * - an update whose reload raises before the invalidation
   *   (`RefreshFailureLeavesStaleSnapshot`);
   * - a read whose lookup faults past an existing snapshot, commits a new
   *   `view_count` (stamping `updated_at`) and then skips the re-cache,
   *   through a put fault or a failed reload.
   * A lost re-cache or a failed reload after a lookup that really missed is
   * harmless, as is a create that answers 500 after its commit: no snapshot
   * of that id exists to go stale.
   */
  lemma HandlePreservesCoherent(s: Store, c: Cache, req: Api.Request, env: Api.Env)
    requires Valid(s) && Coherent(s, c)
    requires !env.invalidateFault
    requires req.Update? ==> env.refreshOk
    requires !(env.getFault && (env.putFault || !env.refreshOk))
    ensures Coherent(Api.Handle(s, c, req, env).store, Api.Handle(s, c, req, env).cache)
  {
  }

  /** The cache's mode never changes, and a disabled cache is never written. */
  lemma HandleKeepsCacheMode(s: Store, c: Cache, req: Api.Request, env: Api.Env)
    ensures Api.Handle(s, c, req, env).cache.enabled == c.enabled
    ensures !c.enabled ==> Api.Handle(s, c, req, env).cache == c
  {
  }

  /**
   * `created_at` is written only by the insert: no request changes it for a
   * row that exists before and after, and ids are never handed out twice.
   */
  lemma HandleKeepsCreatedAt(s: Store, c: Cache, req: Api.Request, env: Api.Env)
    requires Valid(s)
    ensures var s' := Api.Handle(s, c, req, env).store;
      && s'.nextId >= s.nextId
      && (forall k :: k in s'.posts && k !in s.posts ==> k == s.nextId)
      && (forall k :: k in s'.posts && k in s.posts ==> s'.posts[k].createdAt == s.posts[k].createdAt)
  {
  }

  /** A successful read answers the current stored row, whatever the cache held, up to `view_count`. */
  lemma ReadReturnsStoredContent(s: Store, c: Cache, postId: int, env: Api.Env)
    requires Coherent(s, c)
    ensures var r := Api.ReadPost(s, c, postId, env);
      r.response.Ok? ==>
        && postId in r.store.posts
        && r.response.post == r.store.posts[postId].(viewCount := r.response.post.viewCount)
  {
  }

  /**
   * After an update that answered 200 and whose invalidation went through,
   * the next read shows the new fields, whatever stale snapshot the cache
   * held before. That read misses, so it answers 200 when its reload of
   * the row succeeds.
   */
  lemma UpdateThenReadIsFresh(s: Store, c: Cache, postId: int, body: Api.PostUpdate, env: Api.Env, env2: Api.Env)
    requires Api.ValidUpdate(body) && postId in s.posts
    requires env.commitOk && env.refreshOk && !env.invalidateFault
    ensures var u := Api.UpdatePost(s, c, postId, body, env);
      var r := Api.ReadPost(u.store, u.cache, postId, env2);
      var merged := Api.Merge(s.posts[postId], body);
      && GetCachedPost(u.cache, postId, env2.getFault).None?
      && (env2.refreshOk ==> r.response.Ok?)
      && (r.response.Ok? ==>
            && r.response.post.title == merged.title
            && r.response.post.content == merged.content
            && r.response.post.author == merged.author)
  {
  }

  /** After a committed delete whose invalidation went through, reading the id answers 404. */
  lemma DeleteThenReadNotFound(s: Store, c: Cache, postId: int, env: Api.Env, env2: Api.Env)
    requires postId in s.posts
    requires env.commitOk && !env.invalidateFault
    ensures var d := Api.DeletePost(s, c, postId, env);
      Api.ReadPost(d.store, d.cache, postId, env2).response == Api.NotFound
  {
  }

  /**
   * On a working cache, two successive reads of an existing post raise the
   * counter by one each, and answer the counter plus one, then plus two,
   * whether each read hits or misses, unless a miss fails to reload its row.
   */
  lemma SuccessiveReadsCount(s: Store, c: Cache, postId: int, env1: Api.Env, env2: Api.Env)
    requires c.enabled && postId in s.posts
    requires !env1.incrementFault && env1.commitOk
    requires !env2.incrementFault && env2.commitOk
    ensures var r1 := Api.ReadPost(s, c, postId, env1);
      var r2 := Api.ReadPost(r1.store, r1.cache, postId, env2);
      && Counter(r1.cache, postId) == Counter(c, postId) + 1
      && Counter(r2.cache, postId) == Counter(c, postId) + 2
      && (env1.refreshOk ==> r1.response.Ok? && r1.response.post.viewCount == Counter(c, postId) + 1)
      && (env2.refreshOk ==> r2.response.Ok? && r2.response.post.viewCount == Counter(c, postId) + 2)
  {
  }

  /**
   * With the cache disabled, a read whose view-count write commits answers
   * `view_count` 0 and stores 0, whatever the row held before.
   */
  lemma DisabledCacheReadsZero(s: Store, c: Cache, postId: int, env: Api.Env)
    requires !c.enabled && env.commitOk
    ensures var r := Api.ReadPost(s, c, postId, env);
      r.response.Ok? ==>
        && r.response.post.viewCount == 0
        && postId in r.store.posts && r.store.posts[postId].viewCount == 0
  {
  }

  /**
   * Creating a post on a working cache and then reading it hits the cached
   * snapshot: the read answers the submitted fields with `view_count` 1
   * when no counter existed for the new id.
   */
  lemma CreateThenRead(s: Store, c: Cache, body: Api.PostCreate, env: Api.Env, env2: Api.Env)
    requires c.enabled && Api.ValidCreate(body)
    requires env.commitOk && env.refreshOk && !env.putFault
    requires !env2.getFault && !env2.incrementFault
    requires s.nextId !in c.counters
    ensures var cr := Api.CreatePost(s, c, body, env);
      var r := Api.ReadPost(cr.store, cr.cache, s.nextId, env2);
      && r.store == cr.store
      && r.response.Ok?
      && r.response.post.title == body.title
      && r.response.post.content == body.content
      && r.response.post.author == body.author
      && r.response.post.viewCount == 1
  {
  }

  /**
   * The update's reload can fail after its commit: the handler answers 500
   * without invalidating, and a later read serves the old title.
   */
  lemma RefreshFailureLeavesStaleSnapshot()
    ensures var row := Post(1, "a", "b", "c", 0, Some(0), Some(0));
      var s := Store(map[1 := row], 2);
      var c := Cache(true, map[1 := row], map[]);
      var env := Api.Env(1, true, false, false, false, false, false);
      var u := Api.UpdatePost(s, c, 1, Api.PostUpdate(Some("z"), None, None), env);
      && Valid(s) && Coherent(s, c)
      && u.response == Api.ServerError
      && u.store.posts[1].title == "z"
      && !Coherent(u.store, u.cache)
      && Api.ReadPost(u.store, u.cache, 1, env).response.post.title == "a"
  {
  }

  /**
   * The delete's invalidation can be lost to a transport fault: the row is
   * gone, but its snapshot stays, and the next read answers it with 200.
   */
  lemma DeleteFaultLeavesStaleSnapshot()
    ensures var row := Post(1, "a", "b", "c", 0, Some(0), Some(0));
      var s := Store(map[1 := row], 2);
      var c := Cache(true, map[1 := row], map[]);
      var env := Api.Env(1, true, true, false, false, false, true);
      var d := Api.DeletePost(s, c, 1, env);
      && Valid(s) && Coherent(s, c)
      && d.response == Api.NoContent
      && 1 !in d.store.posts
      && !Coherent(d.store, d.cache)
      && Api.ReadPost(d.store, d.cache, 1, env).response == Api.Ok(row.(viewCount := 1))
  {
  }
}
