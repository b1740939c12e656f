/**
 * The HTTP handlers as pure transitions over the post store and the cache.
 *
 * A handler call sees an `Env`: the clock reading, whether the database
 * commit succeeds, whether the reload after it succeeds, and which cache
 * calls hit a transport fault. Requests are handled one at a time.
 */
module Api {
  import Wrappers
  import opened Models
  import opened PostCache
  import opened PostStore

  /** Body of `POST /posts`. */
  datatype PostCreate = PostCreate(title: string, content: string, author: string)

  /** Body of `PUT /posts/{id}`: an absent or null field is `None`. */
  datatype PostUpdate = PostUpdate(title: Wrappers.Option<string>, content: Wrappers.Option<string>, author: Wrappers.Option<string>)

  datatype Response =
    | Ok(post: Post)              // 200 with the post's dictionary
    | Created(post: Post)         // 201 with the post's dictionary
    | Listing(posts: seq<Post>)   // 200 with an array of dictionaries
    | NoContent                   // 204
    | NotFound                    // 404 "Post not found"
    | ServerError                 // 500 "Database error"
    | Unprocessable               // 422, body rejected by the request schema

  /**
   * Everything a handler call depends on besides the store and the cache.
   * `refreshOk` is whether the reload of the row after the commit
   * succeeds: the explicit `db.refresh` after a successful commit in create
   * and update, and in read the re-read by `to_dict` of the row that the
   * commit or the rollback expired. When it raises, the handler answers
   * 500 although whatever the commit did has taken effect.
   */
  datatype Env = Env(
    now: Timestamp,
    commitOk: bool,
    refreshOk: bool,
    getFault: bool,
    incrementFault: bool,
    putFault: bool,
    invalidateFault: bool)

  datatype Step = Step(store: Store, cache: Cache, response: Response)

  /** Query defaults of `GET /posts`. */
  const DefaultSkip: nat := 0
  const DefaultLimit: nat := 100

  /** The `PostCreate` schema: every field present, with the length bounds of its `Field`. */
  predicate ValidCreate(req: PostCreate): (ok: bool)
    ensures ok <==>
      && 1 <= |req.title| <= 255
      && 1 <= |req.content| <= 50000
      && 1 <= |req.author| <= 100
  {
    ValidTitle(req.title) && ValidContent(req.content) && ValidAuthor(req.author)
  }

  /** The `PostUpdate` schema: each field may be absent, and a present one has the bounds of the create schema. */
  predicate ValidUpdate(req: PostUpdate): (ok: bool)
    ensures ok <==>
      && (req.title.Some? ==> 1 <= |req.title.value| <= 255)
      && (req.content.Some? ==> 1 <= |req.content.value| <= 50000)
      && (req.author.Some? ==> 1 <= |req.author.value| <= 100)
  {
    && (req.title.Some? ==> ValidTitle(req.title.value))
    && (req.content.Some? ==> ValidContent(req.content.value))
    && (req.author.Some? ==> ValidAuthor(req.author.value))
  }

  /** A body the create schema accepts becomes a row the store may hold. */
  lemma ValidCreateInsertsValidRow(req: PostCreate, id: int, now: Timestamp)
    requires ValidCreate(req)
    ensures ValidRow(Inserted(id, req.title, req.content, req.author, now))
  {
  }

  /** Merging a body the update schema accepts into a valid row leaves it valid. */
  lemma ValidUpdateKeepsRowValid(p: Post, req: PostUpdate)
    requires ValidRow(p) && ValidUpdate(req)
    ensures ValidRow(Merge(p, req))
  {
  }

  /** Assigns the provided fields of `req` to `p`, leaving the others as they are. */
  function Merge(p: Post, req: PostUpdate): (q: Post)
    ensures q.title == (if req.title.Some? then req.title.value else p.title)
    ensures q.content == (if req.content.Some? then req.content.value else p.content)
    ensures q.author == (if req.author.Some? then req.author.value else p.author)
    ensures q.id == p.id && q.viewCount == p.viewCount
    ensures q.createdAt == p.createdAt && q.updatedAt == p.updatedAt
  {
    var p1 := if req.title.Some? then p.(title := req.title.value) else p;
    var p2 := if req.content.Some? then p1.(content := req.content.value) else p1;
    if req.author.Some? then p2.(author := req.author.value) else p2
  }

  /** `GET /posts`: the store's listing; neither the store nor the cache changes. */
  function ListPostsHandler(s: Store, c: Cache, skip: nat, limit: nat): (r: Step)
    ensures r.store == s && r.cache == c
    ensures r.response == Listing(ListPosts(s, skip, limit))
    ensures r.response.Listing? && |r.response.posts| <= limit
    ensures SortedNewestFirst(r.response.posts)
  {
    Step(s, c, Listing(ListPosts(s, skip, limit)))
  }

  /**
   * `POST /posts`: inserts a row with a fresh id and caches its snapshot.
   * A failed commit answers 500 and touches neither store nor cache; a
   * failed reload after a successful commit also answers 500, but the row
   * is already inserted and is not cached.
   */
  function CreatePost(s: Store, c: Cache, req: PostCreate, env: Env): (r: Step)
    ensures !ValidCreate(req) ==> r == Step(s, c, Unprocessable)
    ensures ValidCreate(req) && !env.commitOk ==> r == Step(s, c, ServerError)
    ensures ValidCreate(req) && env.commitOk ==>
      && var p := Inserted(s.nextId, req.title, req.content, req.author, env.now);
      && p.id == s.nextId
      && p.title == req.title && p.content == req.content && p.author == req.author
      && p.viewCount == 0
      && p.createdAt == Wrappers.Some(env.now) && p.updatedAt == Wrappers.Some(env.now)
      && r.store == Store(s.posts[p.id := p], s.nextId + 1)
      && (env.refreshOk ==> r.response == Created(p) && r.cache == CachePost(c, p.id, p, env.putFault))
      && (!env.refreshOk ==> r.response == ServerError && r.cache == c)
  {
    if !ValidCreate(req) then Step(s, c, Unprocessable)
    else if !env.commitOk then Step(s, c, ServerError)
    else
      var p := Inserted(s.nextId, req.title, req.content, req.author, env.now);
      var s' := Store(s.posts[p.id := p], s.nextId + 1);
      if !env.refreshOk then Step(s', c, ServerError)
      else Step(s', CachePost(c, p.id, p, env.putFault), Created(p))
  }

  /**
   * `GET /posts/{id}`.
   *
   * A cache hit increments the counter and answers the snapshot with that
   * count, leaving the store alone. A miss reads the row (404 if there is
   * none, with no counter touched), increments the counter, assigns it to
   * the row's `view_count` and commits. A failed commit is swallowed, but
   * the rollback expires the in-memory row, so the dictionary that is
   * cached and answered is the stored row as it was. Commit and rollback
   * both expire the row, so `to_dict` re-reads it; if that raises, the
   * answer is 500 with the counter already incremented and nothing
   * re-cached.
   */
  function ReadPost(s: Store, c: Cache, postId: int, env: Env): (r: Step)
    ensures r.cache.enabled == c.enabled
    // hit
    ensures GetCachedPost(c, postId, env.getFault).Some? ==>
      && r.store == s
      && var counted := IncrementViewCount(c, postId, env.incrementFault);
      && r.cache == counted.cache
      && r.response == Ok(c.snapshots[postId].(viewCount := counted.views))
    // absent from both
    ensures r.response == NotFound <==> GetCachedPost(c, postId, env.getFault).None? && postId !in s.posts
    ensures r.response == NotFound ==> r.store == s && r.cache == c
    // miss, row present
    ensures GetCachedPost(c, postId, env.getFault).None? && postId in s.posts ==>
      && var counted := IncrementViewCount(c, postId, env.incrementFault);
      && var before := s.posts[postId];
      && r.store.nextId == s.nextId
      && postId in r.store.posts
      && var stored := r.store.posts[postId];
      && r.store.posts == s.posts[postId := stored]
      && SameColumns(stored, if env.commitOk then before.(viewCount := counted.views) else before)
      && (!env.commitOk ==> r.store == s)
      && (env.commitOk ==>
            stored.updatedAt ==
            (if counted.views == before.viewCount then before.updatedAt else Wrappers.Some(env.now)))
      && (env.refreshOk ==> r.response == Ok(stored) && r.cache == CachePost(counted.cache, postId, stored, env.putFault))
      && (!env.refreshOk ==> r.response == ServerError && r.cache == counted.cache)
  {
    match GetCachedPost(c, postId, env.getFault)
    case Some(snapshot) =>
      var counted := IncrementViewCount(c, postId, env.incrementFault);
      Step(s, counted.cache, Ok(snapshot.(viewCount := counted.views)))
    case None =>
      if postId !in s.posts then Step(s, c, NotFound)
      else
        var counted := IncrementViewCount(c, postId, env.incrementFault);
        var before := s.posts[postId];
        var written := Flush(before, before.(viewCount := counted.views), env.now);
        var shown := if env.commitOk then written else before;
        var s' := if env.commitOk then s.(posts := s.posts[postId := written]) else s;
        assert s'.posts == s.posts[postId := shown];
        if !env.refreshOk then Step(s', counted.cache, ServerError)
        else Step(s', CachePost(counted.cache, postId, shown, env.putFault), Ok(shown))
  }

  /**
   * `PUT /posts/{id}`: assigns the provided fields, commits, then
   * invalidates the snapshot. `view_count` and `created_at` are kept;
   * `updated_at` is stamped when some field actually changed. When the
   * reload after a successful commit raises, the handler answers 500
   * with the update already stored and the snapshot left in place.
   */
  function UpdatePost(s: Store, c: Cache, postId: int, req: PostUpdate, env: Env): (r: Step)
    ensures !ValidUpdate(req) ==> r == Step(s, c, Unprocessable)
    ensures ValidUpdate(req) && postId !in s.posts ==> r == Step(s, c, NotFound)
    ensures ValidUpdate(req) && postId in s.posts && !env.commitOk ==> r == Step(s, c, ServerError)
    ensures ValidUpdate(req) && postId in s.posts && env.commitOk ==>
      && var before := s.posts[postId];
      && postId in r.store.posts
      && var p := r.store.posts[postId];
      && SameColumns(p, Merge(before, req))
      && p.viewCount == before.viewCount && p.createdAt == before.createdAt
      && (SameColumns(before, Merge(before, req)) ==> p.updatedAt == before.updatedAt)
      && (!SameColumns(before, Merge(before, req)) ==> p.updatedAt == Wrappers.Some(env.now))
      && r.store == s.(posts := s.posts[postId := p])
      && (env.refreshOk ==> r.response == Ok(p) && r.cache == InvalidatePostCache(c, postId, env.invalidateFault))
      && (!env.refreshOk ==> r.response == ServerError && r.cache == c)
  {
    if !ValidUpdate(req) then Step(s, c, Unprocessable)
    else if postId !in s.posts then Step(s, c, NotFound)
    else if !env.commitOk then Step(s, c, ServerError)
    else
      var before := s.posts[postId];
      var written := Flush(before, Merge(before, req), env.now);
      var s' := s.(posts := s.posts[postId := written]);
      if !env.refreshOk then Step(s', c, ServerError)
      else Step(s', InvalidatePostCache(c, postId, env.invalidateFault), Ok(written))
  }

  /**
   * `DELETE /posts/{id}`: removes the row, commits, then invalidates the
   * snapshot; the view counter key is left in place.
   */
  function DeletePost(s: Store, c: Cache, postId: int, env: Env): (r: Step)
    ensures postId !in s.posts ==> r == Step(s, c, NotFound)
    ensures postId in s.posts && !env.commitOk ==> r == Step(s, c, ServerError)
    ensures postId in s.posts && env.commitOk ==>
      && r.response == NoContent
      && r.store == s.(posts := s.posts - {postId})
      && postId !in r.store.posts
      && r.cache == InvalidatePostCache(c, postId, env.invalidateFault)
      && r.cache.counters == c.counters
  {
    if postId !in s.posts then Step(s, c, NotFound)
    else if !env.commitOk then Step(s, c, ServerError)
    else Step(s.(posts := s.posts - {postId}), InvalidatePostCache(c, postId, env.invalidateFault), NoContent)
  }

  /** One request of any of the five kinds. */
  datatype Request =
    | List(skip: nat := DefaultSkip, limit: nat := DefaultLimit)
    | Create(create: PostCreate)
    | Read(readId: int)
    | Update(updateId: int, update: PostUpdate)
    | Delete(deleteId: int)

  function Handle(s: Store, c: Cache, req: Request, env: Env): Step {
    match req
    case List(skip, limit) => ListPostsHandler(s, c, skip, limit)
    case Create(body) => CreatePost(s, c, body, env)
    case Read(postId) => ReadPost(s, c, postId, env)
    case Update(postId, body) => UpdatePost(s, c, postId, body, env)
    case Delete(postId) => DeletePost(s, c, postId, env)
  }
}
