# Blog post store with a fail-open view cache, in Dafny

This project models the core of a small blogging backend and of its web
client's id check:

- the `posts` table row (`Post`), its column defaults, the `updated_at`
  on-update rule and the `to_dict` projection;
- the Redis cache layer: content snapshots under `post:{id}:content`, view
  counters under `post:{id}:views`, and five operations that fall back to a
  no-op, a miss or `0` when the cache is disabled or the transport fails;
- the five request handlers (list, create, read, update, delete) as pure
  transitions `(Store, Cache, request, Env) -> (Store, Cache, Response)`;
- the client's `validateId`, built on an explicit model of JavaScript's
  `parseInt(s, 10)`.

Requests are handled one at a time. Everything that the handlers cannot
see is an input carried by `Api.Env`:

- `now`: an abstract clock reading, a natural number;
- `commitOk`: whether the database commit succeeds;
- `refreshOk`: whether the reload of the row after the commit succeeds:
  the explicit `db.refresh` in create and update, and in read the re-read
  by `to_dict` of the row that the commit or the rollback expired;
- four flags, one per cache call, saying whether that call hits a transport
  fault (connection or timeout error).

Cache state is abstract. `enabled` is false when the start-up probe
failed. `snapshots` and `counters` are maps from post id to row and to
count. Keying both maps by id is sound because the two key families are
injective and disjoint. `CacheKeys.KeysInjectiveAndDisjoint` proves this
through a key decoder. A snapshot is the `Post` row itself:
`Models.FromDictToDict` shows that the dictionary `to_dict` produces reads
back to the same row.

Modules, one per file: `Wrappers`, `Decimal` (Python's `str(int)`),
`CacheKeys`, `Models`, `PostCache`, `PostStore`, `Api`, `ApiProperties`,
`JsParseInt`, `PostsClient`.

## How the code was read

- **A failed view-count commit in `read_post`.** On a miss, `read_post`
  assigns the counter to the row and commits. If the commit fails, the
  session rolls back, and rollback expires every loaded instance. The later
  `post.to_dict()` therefore re-reads the stored row. So the dictionary that
  is cached and returned carries the *stored* `view_count`, not the fresh
  counter (`Api.ReadPost`). A successful commit expires the row too, so
  `to_dict` re-reads it in either case.
- **`updated_at` and reads.** `onupdate=utc_now` fires whenever the flush
  emits an UPDATE. That happens when some column really changed, and
  `view_count` counts as a column. So a read that changes the stored count
  also stamps `updated_at` (`Models.Flush`, `Api.ReadPost`). An update that
  assigns the values a row already has stamps nothing.
- **Request-schema length bounds.** The bounds on create and update bodies
  are checked before a handler runs. The model answers `Unprocessable`
  (HTTP 422) when they fail, instead of placing a precondition on callers.
- **A 500 after a successful commit.** `create_post` and `update_post`
  run `db.commit()` and `db.refresh(...)` in one `try`. If the refresh
  raises, the handler answers 500, but the commit has already taken
  effect: the new row is stored and not cached, or the updated row is
  stored and its snapshot is not invalidated (`Api.CreatePost`,
  `Api.UpdatePost`). In `read_post`, an exception from the re-read by
  `to_dict` is not caught either. The answer is 500, the counter has
  already been incremented, any committed count stays stored, and nothing
  is re-cached (`Api.ReadPost`).
- **Stale snapshots.** A stale snapshot survives in three ways.
  - A lost invalidation after an update or a delete. After a delete, the
    next read hits the deleted row's snapshot and answers it with 200
    (`ApiProperties.DeleteFaultLeavesStaleSnapshot`).
  - An update whose refresh raises after its commit, so the invalidation
    never runs (`ApiProperties.RefreshFailureLeavesStaleSnapshot`).
  - A read whose GET faults although a snapshot exists, which then commits
    a new count and skips the re-cache, through a put fault or a failed
    re-read. The old snapshot, with the old `updated_at`, stays behind.

  A lost re-cache or a failed re-read after a GET that really missed is
  harmless: there is no snapshot to go stale. So is a create that answers
  500 after its commit, since the cache never held the new id.
  `ApiProperties.HandlePreservesCoherent` therefore assumes only that no
  invalidation faults, that no update's refresh fails, and that no read
  whose GET faulted also skips its re-cache.
- **Query defaults.** `GET /posts` defaults to `skip=0` and `limit=100`
  (`Api.DefaultSkip`, `Api.DefaultLimit`, the defaults of `Api.List`).

## Model

| member | source | states |
|---|---|---|
| Decimal.IntToStringRoundTrip | docs/examples/demo-app-sandbox-yolo/backend/app/cache.py:28-35 | the decimal rendering of a post id inside a key can be read back to that id, so distinct ids render differently |
| CacheKeys.PostCacheKey | docs/examples/demo-app-sandbox-yolo/backend/app/cache.py:28-30 | the content key `post:{id}:content` of an id decodes back to the content kind and that id |
| CacheKeys.ViewCountKey | docs/examples/demo-app-sandbox-yolo/backend/app/cache.py:33-35 | the counter key `post:{id}:views` of an id decodes back to the views kind and that id |
| CacheKeys.ParseKeyOfKeyFor | docs/examples/demo-app-sandbox-yolo/backend/app/cache.py:28-35 | every content or view key decodes back to its kind and its post id |
| CacheKeys.ParseKeyOnlyOfKeyFor | docs/examples/demo-app-sandbox-yolo/backend/app/cache.py:28-35 | a string that decodes is exactly the key built for the decoded kind and id |
| CacheKeys.KeysInjectiveAndDisjoint | docs/examples/demo-app-sandbox-yolo/backend/app/cache.py:28-35 | two keys are equal if and only if they have the same kind and the same post id |
| CacheKeys.ContentAndViewKeysDistinct | docs/examples/demo-app-sandbox-yolo/backend/app/cache.py:28-35 | no content key equals any view key; each key function is injective in the id |
| Models.Inserted | docs/examples/demo-app-shared/backend/app/models.py:26-28 | a new row holds the given id and text, `view_count` 0 and both timestamps set to the insert time (one clock reading for both; see Left out) |
| Models.Flush | docs/examples/demo-app-shared/backend/app/models.py:28 | a flushed row holds every assigned column, `created_at` included; `updated_at` becomes now exactly when some column changed, and is otherwise kept |
| Models.FlushIdempotent | docs/examples/demo-app-shared/backend/app/models.py:28 | flushing the same assignment a second time changes nothing, not even `updated_at` |
| Models.ToDict | docs/examples/demo-app-shared/backend/app/models.py:30-40 | the dictionary has exactly the seven keys id, title, content, author, view_count, created_at and updated_at, each copying its column; an absent timestamp maps to null and a present one to its ISO string |
| Models.FromDictToDict | docs/examples/demo-app-shared/backend/app/models.py:30-40 | the dictionary of a row reads back to that same row, so a cached snapshot stands for the row it was made from |
| PostCache.CachePost | docs/examples/demo-app-sandbox-yolo/backend/app/cache.py:38-46 | disabled or faulting: no change; otherwise the snapshot is stored under its id, with counters and other ids untouched |
| PostCache.GetCachedPost | docs/examples/demo-app-sandbox-yolo/backend/app/cache.py:49-60 | a hit happens if and only if the cache is enabled, there is no fault and a snapshot exists, and it returns that snapshot |
| PostCache.InvalidatePostCache | docs/examples/demo-app-sandbox-yolo/backend/app/cache.py:63-71 | disabled or faulting: no change; otherwise only this id's snapshot is removed, and counters and other snapshots are untouched |
| PostCache.IncrementViewCount | docs/examples/demo-app-sandbox-yolo/backend/app/cache.py:74-83 | disabled or faulting: returns 0 with no change; otherwise returns the previous counter plus one (absent counts as 0), stores it, and leaves other keys and snapshots alone |
| PostCache.GetViewCount | docs/examples/demo-app-sandbox-yolo/backend/app/cache.py:86-96 | returns the stored counter, or 0 when disabled, faulting or absent; it has no state to change |
| PostCache.CacheThenGet | docs/examples/demo-app-sandbox-yolo/backend/app/cache.py:38-60 | on a working cache, a snapshot just stored is the one read back |
| PostCache.InvalidateThenGet | docs/examples/demo-app-sandbox-yolo/backend/app/cache.py:63-71 | after an invalidation the lookup of that id misses, while other ids' lookups and the id's view count are unchanged |
| PostCache.IncrementThenGetViewCount | docs/examples/demo-app-sandbox-yolo/backend/app/cache.py:74-96 | after an increment, the view count reads what the increment returned, which is one more than before |
| PostCache.DisabledIsInert | docs/examples/demo-app-sandbox-yolo/backend/app/cache.py:38-96 | on a disabled cache, stores and invalidations change nothing, lookups miss, and both counter operations return 0 |
| PostStore.SortNewestFirst | docs/examples/demo-app-sandbox-yolo/backend/app/api.py:78 | the result is ordered by `created_at`, newest first, and is a permutation of the input |
| PostStore.ListPosts | docs/examples/demo-app-sandbox-yolo/backend/app/api.py:76-79 | the listing is newest first; its i-th row is row `skip + i` of all rows sorted; its length is `min(limit, rows - skip)`, and 0 when `skip` passes the end, as OFFSET/LIMIT gives |
| PostStore.ListedRowsAreStored | docs/examples/demo-app-sandbox-yolo/backend/app/api.py:76-79 | every listed row is the stored row under its own id |
| PostStore.ListingIsComplete | docs/examples/demo-app-sandbox-yolo/backend/app/api.py:76-79 | with no offset and a large enough limit, the listing holds every stored row exactly once |
| PostStore.ValidRowFitsColumns | docs/examples/demo-app-shared/backend/app/models.py:23-25 | the schema bounds on title and author keep every valid row within the 255 and 100 character column widths |
| PostStore.EmptyStoreIsValid | docs/examples/demo-app-shared/backend/app/models.py:22-28 | a fresh database with ids starting at 1 meets the store invariants, so `ApiProperties.HandlePreservesValid` applies from the first request |
| Api.Merge | docs/examples/demo-app-sandbox-yolo/backend/app/api.py:144-150 | a field is overwritten exactly when the update provides it; id, view_count and timestamps are kept |
| Api.ValidCreate | docs/examples/demo-app-sandbox-yolo/backend/app/api.py:44-47 | a body is accepted exactly when title, content and author have lengths in 1..255, 1..50000 and 1..100 |
| Api.ValidCreateInsertsValidRow | docs/examples/demo-app-sandbox-yolo/backend/app/api.py:44-47 | a body the create schema accepts always becomes a row the store may hold |
| Api.ValidUpdate | docs/examples/demo-app-sandbox-yolo/backend/app/api.py:50-53 | a body is accepted exactly when each present field is within the create bounds, absent fields being free |
| Api.ValidUpdateKeepsRowValid | docs/examples/demo-app-sandbox-yolo/backend/app/api.py:50-53 | merging a body the update schema accepts into a valid row leaves it valid |
| Api.ListPostsHandler | docs/examples/demo-app-sandbox-yolo/backend/app/api.py:75-79 | listing changes neither the store nor the cache and answers the store listing for `skip` and `limit`, so every property of `PostStore.ListPosts` holds of the answer |
| Api.CreatePost | docs/examples/demo-app-sandbox-yolo/backend/app/api.py:82-101 | an invalid body answers 422 and a failed commit 500, both with nothing changed. After a commit the submitted fields are stored under the next id, with view_count 0 and both timestamps now. If the reload then succeeds, that row is answered with 201 and cached; if it fails, the answer is 500, the row stays stored and the cache is untouched |
| Api.ReadPost | docs/examples/demo-app-sandbox-yolo/backend/app/api.py:104-134 | a hit leaves the store alone and answers the snapshot with the incremented counter. Absent from cache and store: 404, with no counter touched. On a miss with the row present, the counter is incremented and assigned to the row. A failed commit leaves the store as it was. A successful commit stores the counter, and `updated_at` becomes now exactly when the counter differs from the stored count. If the re-read of the row succeeds, the stored row is answered and cached; if it fails, the answer is 500 with the incremented counter and nothing re-cached |
| Api.UpdatePost | docs/examples/demo-app-sandbox-yolo/backend/app/api.py:137-162 | 422 for an invalid body, 404 for a missing id and 500 on a failed commit, all with nothing changed. After a commit only the provided fields change, view_count and created_at are kept, and `updated_at` is stamped if and only if something changed. If the reload succeeds, that row is answered and the snapshot invalidated; if it fails, the answer is 500 with the change stored and the cache untouched |
| Api.DeletePost | docs/examples/demo-app-sandbox-yolo/backend/app/api.py:165-182 | 404 for a missing id and 500 on a failed commit, both with nothing changed. Otherwise the row is removed and the snapshot invalidated; the view counter stays |
| ApiProperties.HandlePreservesValid | docs/examples/demo-app-shared/backend/app/models.py:22-28 | every request keeps each row under its own id below the next id, with bounded text and set, ordered timestamps |
| ApiProperties.HandlePreservesCoherent | docs/examples/demo-app-sandbox-yolo/backend/app/api.py:98-180 | every snapshot of a working cache stays equal to the stored row, up to view_count, when no invalidation faults, no update's refresh fails, and no read whose GET faulted also skips its re-cache (put fault or failed re-read) |
| ApiProperties.HandleKeepsCacheMode | docs/examples/demo-app-sandbox-yolo/backend/app/cache.py:19-25 | no request enables or disables the cache, and a disabled cache is never written |
| ApiProperties.HandleKeepsCreatedAt | docs/examples/demo-app-shared/backend/app/models.py:27 | created_at of an existing row never changes; the next id never decreases, so a new row only appears under it |
| ApiProperties.ReadReturnsStoredContent | docs/examples/demo-app-sandbox-yolo/backend/app/api.py:107-134 | on a coherent cache, a successful read answers the current stored row up to view_count, whether it hit or missed |
| ApiProperties.UpdateThenReadIsFresh | docs/examples/demo-app-sandbox-yolo/backend/app/api.py:152-160 | after an update answered 200 whose invalidation succeeds, the next read's lookup misses, whatever stale snapshot the cache held before; the read answers 200 when its reload succeeds, and any 200 it gives carries the merged title, content and author |
| ApiProperties.DeleteThenReadNotFound | docs/examples/demo-app-sandbox-yolo/backend/app/api.py:172-180 | after a committed delete whose invalidation succeeds, reading the id answers 404 |
| ApiProperties.SuccessiveReadsCount | docs/examples/demo-app-sandbox-yolo/backend/app/api.py:108-134 | on a working cache, two successive reads whose commits succeed raise the counter by one each; when its reload does not fail, each read answers the counter plus one, then plus two, whether it hits or misses |
| ApiProperties.DisabledCacheReadsZero | docs/examples/demo-app-sandbox-yolo/backend/app/api.py:121-128 | with the cache disabled, a read whose commit succeeds answers view_count 0 and stores 0 |
| ApiProperties.CreateThenRead | docs/examples/demo-app-sandbox-yolo/backend/app/api.py:91-113 | create with a successful commit and reload, then read, on a working cache, hits the new snapshot and answers the submitted fields with view_count 1 |
| ApiProperties.RefreshFailureLeavesStaleSnapshot | docs/examples/demo-app-sandbox-yolo/backend/app/api.py:152-160 | an update whose reload fails after its commit answers 500, stores the new title, leaves a coherent cache incoherent, and the next read serves the old title |
| ApiProperties.DeleteFaultLeavesStaleSnapshot | docs/examples/demo-app-sandbox-yolo/backend/app/api.py:172-180 | a committed delete whose invalidation faults answers 204 and removes the row, but leaves a coherent cache incoherent, and the next read answers the deleted row with 200 |
| JsParseInt.TrimStartRemovesWhiteSpace | docs/examples/demo-app-sandbox-yolo/frontend/src/api/posts.js:17 | parseInt's trimming removes a prefix made only of white space |
| JsParseInt.NumberValue | docs/examples/demo-app-sandbox-yolo/frontend/src/api/posts.js:17-20 | an integer converts to an infinity exactly when its magnitude is at least 2^1024 - 2^970, and otherwise to itself |
| JsParseInt.ParseInt10 | docs/examples/demo-app-sandbox-yolo/frontend/src/api/posts.js:17 | the reading is NaN exactly when no digit follows the leading white space and the optional sign, and it is negative only after a "-" |
| JsParseInt.ParseInt10SkipsWhiteSpace | docs/examples/demo-app-sandbox-yolo/frontend/src/api/posts.js:17 | leading white space before a non-white-space character does not change the reading |
| JsParseInt.ParseInt10OfLayout | docs/examples/demo-app-sandbox-yolo/frontend/src/api/posts.js:17 | white space, an optional sign, a digit run and a tail that does not start with a digit read as the signed value of the digits |
| JsParseInt.ParseInt10NoDigits | docs/examples/demo-app-sandbox-yolo/frontend/src/api/posts.js:17 | with no digit after the white space and the optional sign, parseInt gives NaN |
| JsParseInt.ParseInt10OfNatToString | docs/examples/demo-app-sandbox-yolo/frontend/src/api/posts.js:17 | parsing the decimal rendering of a natural number below the overflow bound gives that number back in the exact-integer Number; up to 2^53 every integer is a double, so there this is also the value JavaScript gives |
| PostsClient.ValidateId | docs/examples/demo-app-sandbox-yolo/frontend/src/api/posts.js:15-31 | accepted if and only if parseInt gives a finite positive value and the string has no "..", "/" or "\"; then it returns that value. NaN, zero or negative values throw the positive-integer error; a traversal sequence in a positive id throws the other error |
| PostsClient.ValidateIdOfDigitPrefix | docs/examples/demo-app-sandbox-yolo/frontend/src/api/posts.js:17-30 | a positive digit run followed by a tail with no digit first and no traversal sequence is accepted as the run's value |
| PostsClient.ValidateIdOfCanonical | docs/examples/demo-app-sandbox-yolo/frontend/src/api/posts.js:15-31 | the decimal rendering of every positive id below the overflow bound is accepted as that id; up to 2^53 this holds of JavaScript's own parseInt as well |
| PostsClient.ValidateIdRejectsTraversal | docs/examples/demo-app-sandbox-yolo/frontend/src/api/posts.js:25-28 | a string with "..", "/" or "\" anywhere is refused |
| PostsClient.ValidateIdTrailingText | docs/examples/demo-app-sandbox-yolo/frontend/src/api/posts.js:17-30 | "12abc" is accepted as 12 |
| PostsClient.ValidateIdSlash | docs/examples/demo-app-sandbox-yolo/frontend/src/api/posts.js:25-28 | "1/2" is refused for path traversal even though it reads as 1 |
| PostsClient.ValidateIdZero | docs/examples/demo-app-sandbox-yolo/frontend/src/api/posts.js:17-21 | "0" and "0x1A" read as 0 and are refused as not positive |
| PostsClient.ValidateIdNegative | docs/examples/demo-app-sandbox-yolo/frontend/src/api/posts.js:20-21 | "-3" is refused as not positive |
| PostsClient.ValidateIdNoDigits | docs/examples/demo-app-sandbox-yolo/frontend/src/api/posts.js:17-21 | "abc" reads as NaN and is refused |

## Left out

- Application wiring is not modelled: the web framework app, lifespan hook, cross-origin middleware, route decorators and the `/` health check. They route requests and hold no logic of the core.
- The Redis client construction and its start-up ping are not modelled. They appear only as the `enabled` flag.
- `sync_view_count_to_db` has an empty body, so there is nothing to model.
- Snapshot expiry after `CacheTtl` (3600 s) is not modelled. An expiry would only remove a snapshot, which keeps every invariant here.
- Logging and JSON text serialisation are left out. A snapshot is the row, justified by `Models.FromDictToDict`.
- Real timestamps are replaced by a natural-number clock. The ISO rendering is replaced by a canonical decimal rendering, which is injective and can be read back.
- The database session is reduced to map updates plus the `commitOk` and `refreshOk` flags. The initial `SELECT` of a handler is assumed not to fail.
- The id counter is assumed unchanged by a failed insert. Some databases consume an id on a rolled-back insert.
- Api.CreatePost: one clock reading stands for both column defaults. `default=utc_now` is evaluated once per column, so the real `created_at` and `updated_at` of a new row come from two readings a few microseconds apart. The model sets both to `now`.
- Models.Inserted: sets both timestamps to the same reading, for the reason given for `Api.CreatePost`.
- Integer widths are not modelled: the 32-bit `Integer` column and the signed 64-bit Redis counter (an INCR past its maximum raises an error the code does not catch).
- PostCache.GetViewCount: the "value is not an integer" branch is not modelled. Counters are naturals because only INCR writes the view key.
- PostCache.GetCachedPost: the "malformed JSON" miss is not modelled. Only `cache_post` writes the content key, and always with a `to_dict` dictionary.
- PostStore.ListPosts: `skip` and `limit` are naturals. Negative query values, which the database rejects or treats its own way, are not modelled. The order among rows with equal `created_at` is unspecified in SQL; the model fixes one order (higher id first).
- ApiProperties.HandlePreservesCoherent: holds only when no invalidation faults, no update's refresh fails, and no read whose GET faulted also skips its re-cache. Each of these can leave a stale snapshot (see "How the code was read", `ApiProperties.DeleteFaultLeavesStaleSnapshot` and `ApiProperties.RefreshFailureLeavesStaleSnapshot`).
- ApiProperties.CreateThenRead: states view_count 1 only when no counter existed for the new id. In general it is that counter plus one.
- JsParseInt.NumberValue: finite results are kept exact. Rounding of magnitudes above 2^53 to the nearest double is not modelled, only the overflow to an infinity.
- PostsClient.ValidateId: only string arguments are modelled, and characters are Unicode scalar values rather than UTF-16 code units. `String(id)` of numbers and other values is not modelled.
- The axios calls of the posts client are network I/O and are not modelled.
- Concurrency is out of scope, including a read racing an update between the update's commit and its invalidation.
