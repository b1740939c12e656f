/**
 * The relational post store as a map from primary key to row, plus the
 * next value of the auto-incremented id, and the listing query
 * `ORDER BY created_at DESC OFFSET skip LIMIT limit`.
 */
module PostStore {
  import opened Wrappers
  import opened Models

  /** Length bounds the request schemas impose on the text fields. */
  const TitleMinLength := 1
  const ContentMinLength := 1
  const ContentMaxLength := 50000
  const AuthorMinLength := 1

  datatype Store = Store(posts: map<int, Post>, nextId: int)

  /** The store of a fresh database: no rows, ids start at 1. */
  const EmptyStore := Store(map[], 1)

  predicate ValidTitle(s: string) { TitleMinLength <= |s| <= TitleMaxLength }
  predicate ValidContent(s: string) { ContentMinLength <= |s| <= ContentMaxLength }
  predicate ValidAuthor(s: string) { AuthorMinLength <= |s| <= AuthorMaxLength }

  /** A row as the handlers leave it: validated text and both timestamps set, in order. */
  predicate ValidRow(p: Post) {
    && ValidTitle(p.title) && ValidContent(p.content) && ValidAuthor(p.author)
    && p.createdAt.Some? && p.updatedAt.Some?
    && p.createdAt.value <= p.updatedAt.value
  }

  /** Every row sits under its own id, below the next id to be assigned. */
  predicate Valid(s: Store) {
    && 1 <= s.nextId
    && forall k :: k in s.posts ==> s.posts[k].id == k && 1 <= k < s.nextId && ValidRow(s.posts[k])
  }

  /** No stored timestamp lies after `now`: the clock does not run backwards. */
  predicate ClockNotBefore(s: Store, now: Timestamp) {
    forall k :: k in s.posts && s.posts[k].updatedAt.Some? ==> s.posts[k].updatedAt.value <= now
  }

  /** The schema bounds on the text fields keep every valid row within the column widths. */
  lemma ValidRowFitsColumns(p: Post)
    requires ValidRow(p)
    ensures FitsColumns(p)
  {
  }

  /** A fresh database satisfies the store invariants at every clock reading. */
  lemma EmptyStoreIsValid(now: Timestamp)
    ensures Valid(EmptyStore) && ClockNotBefore(EmptyStore, now)
  {
  }

  /** The sort key of `ORDER BY created_at`; every valid row has one. */
  function CreatedKey(p: Post): int {
    match p.createdAt
    case Some(t) => t
    case None => -1
  }

  predicate SortedNewestFirst(xs: seq<Post>) {
    forall i, j :: 0 <= i < j < |xs| ==> CreatedKey(xs[i]) >= CreatedKey(xs[j])
  }

  /** The rows with id in [1, n), highest id first. */
  function RowsBelow(posts: map<int, Post>, n: int): (r: seq<Post>)
    ensures forall p :: p in r ==> exists k :: k in posts && 1 <= k < n && posts[k] == p
    ensures forall k :: k in posts && 1 <= k < n ==> posts[k] in r
    decreases n
  {
    if n <= 1 then []
    else if n - 1 in posts then [posts[n - 1]] + RowsBelow(posts, n - 1)
    else RowsBelow(posts, n - 1)
  }

  function KeysBelow(posts: map<int, Post>, n: int): set<int> {
    set k | k in posts && 1 <= k < n
  }

  /** `RowsBelow` yields one row per stored id below `n`. */
  lemma {:induction false} RowsBelowCount(posts: map<int, Post>, n: int)
    ensures |RowsBelow(posts, n)| == |KeysBelow(posts, n)|
    decreases n
  {
    if n <= 1 {
      assert KeysBelow(posts, n) == {};
    } else {
      RowsBelowCount(posts, n - 1);
      if n - 1 in posts {
        assert KeysBelow(posts, n) == KeysBelow(posts, n - 1) + {n - 1};
      } else {
        assert KeysBelow(posts, n) == KeysBelow(posts, n - 1);
      }
    }
  }

  /** Inserts `p` before the first row that is not newer than it. */
  function InsertNewestFirst(p: Post, xs: seq<Post>): (r: seq<Post>)
    requires SortedNewestFirst(xs)
    ensures SortedNewestFirst(r)
    ensures multiset(r) == multiset(xs) + multiset{p}
  {
    if xs == [] || CreatedKey(p) >= CreatedKey(xs[0]) then [p] + xs
    else
      var rest := InsertNewestFirst(p, xs[1..]);
      assert xs == [xs[0]] + xs[1..];
      HeadBoundsInsert(xs, p, rest);
      [xs[0]] + rest
  }

  /** The head of a sorted list, newer than `p`, is at least as new as every row of `rest`. */
  lemma HeadBoundsInsert(xs: seq<Post>, p: Post, rest: seq<Post>)
    requires |xs| > 0 && SortedNewestFirst(xs) && SortedNewestFirst(rest)
    requires CreatedKey(p) < CreatedKey(xs[0])
    requires multiset(rest) == multiset(xs[1..]) + multiset{p}
    ensures SortedNewestFirst([xs[0]] + rest)
  {
    forall q | q in rest
      ensures CreatedKey(xs[0]) >= CreatedKey(q)
    {
      assert q in multiset(rest);
      if q != p {
        assert q in multiset(xs[1..]);
        var j :| 0 <= j < |xs[1..]| && xs[1..][j] == q;
        assert xs[j + 1] == q;
      }
    }
    var r := [xs[0]] + rest;
    forall i, j | 0 <= i < j < |r|
      ensures CreatedKey(r[i]) >= CreatedKey(r[j])
    {
      if i > 0 {
        assert r[i] == rest[i - 1] && r[j] == rest[j - 1];
      } else {
        assert r[j] in rest;
      }
    }
  }

  /** Insertion sort by creation time, newest first. */
  function SortNewestFirst(xs: seq<Post>): (r: seq<Post>)
    ensures SortedNewestFirst(r)
    ensures multiset(r) == multiset(xs)
  {
    if xs == [] then []
    else
      assert xs == [xs[0]] + xs[1..];
      InsertNewestFirst(xs[0], SortNewestFirst(xs[1..]))
  }

  /** Every row of the store, newest first. */
  function AllNewestFirst(s: Store): seq<Post> {
    SortNewestFirst(RowsBelow(s.posts, s.nextId))
  }

  /** `list_posts`: the sorted rows with the first `skip` dropped, at most `limit` of them. */
  function ListPosts(s: Store, skip: nat, limit: nat): (r: seq<Post>)
    ensures SortedNewestFirst(r)
    ensures |r| <= limit
    ensures |r| == if skip >= |AllNewestFirst(s)| then 0
                   else if limit <= |AllNewestFirst(s)| - skip then limit
                   else |AllNewestFirst(s)| - skip
    ensures forall i :: 0 <= i < |r| ==> r[i] == AllNewestFirst(s)[skip + i]
  {
    var all := AllNewestFirst(s);
    var lo := if skip <= |all| then skip else |all|;
    var hi := if lo + limit <= |all| then lo + limit else |all|;
    all[lo..hi]
  }

  /** Every listed row is a stored row, under its own id. */
  lemma ListedRowsAreStored(s: Store, skip: nat, limit: nat)
    requires Valid(s)
    ensures forall p :: p in ListPosts(s, skip, limit) ==> p.id in s.posts && s.posts[p.id] == p
  {
    var rows := RowsBelow(s.posts, s.nextId);
    var all := AllNewestFirst(s);
    forall p | p in ListPosts(s, skip, limit)
      ensures p.id in s.posts && s.posts[p.id] == p
    {
      var i :| 0 <= i < |ListPosts(s, skip, limit)| && ListPosts(s, skip, limit)[i] == p;
      assert p == all[skip + i];
      assert p in multiset(all);
      assert p in multiset(rows);
      assert p in rows;
    }
  }

  /** With no offset and a large enough limit, the listing holds every stored row exactly once. */
  lemma ListingIsComplete(s: Store, limit: nat)
    requires Valid(s)
    requires limit >= |s.posts|
    ensures multiset(ListPosts(s, 0, limit)) == multiset(s.posts.Values)
  {
    var rows := RowsBelow(s.posts, s.nextId);
    RowsBelowCount(s.posts, s.nextId);
    assert KeysBelow(s.posts, s.nextId) == s.posts.Keys;
    assert |rows| == |s.posts|;
    assert ListPosts(s, 0, limit) == AllNewestFirst(s);
    RowsDistinct(s.posts, s.nextId);
    DistinctRowsMultiset(s, rows);
  }

  /** Rows gathered by `RowsBelow` from a valid store have strictly decreasing ids. */
  lemma {:induction false} RowsDistinct(posts: map<int, Post>, n: int)
    requires forall k :: k in posts ==> posts[k].id == k
    ensures forall i, j :: 0 <= i < j < |RowsBelow(posts, n)| ==>
      RowsBelow(posts, n)[i].id > RowsBelow(posts, n)[j].id
    ensures forall i :: 0 <= i < |RowsBelow(posts, n)| ==> RowsBelow(posts, n)[i].id < n
    decreases n
  {
    if n > 1 {
      RowsDistinct(posts, n - 1);
    }
  }

  lemma DistinctRowsMultiset(s: Store, rows: seq<Post>)
    requires Valid(s)
    requires forall i, j :: 0 <= i < j < |rows| ==> rows[i].id > rows[j].id
    requires forall p :: p in rows ==> p.id in s.posts && s.posts[p.id] == p
    requires forall k :: k in s.posts ==> s.posts[k] in rows
    ensures multiset(rows) == multiset(s.posts.Values)
  {
    forall p
      ensures multiset(rows)[p] == multiset(s.posts.Values)[p]
    {
      if p in rows {
        var i :| 0 <= i < |rows| && rows[i] == p;
        OccursOnce(rows, i);
      } else {
        forall k | k in s.posts
          ensures s.posts[k] != p
        {
          assert s.posts[k] in rows;
        }
        assert p !in s.posts.Values;
      }
    }
  }

  lemma OccursOnce(rows: seq<Post>, i: int)
    requires 0 <= i < |rows|
    requires forall a, b :: 0 <= a < b < |rows| ==> rows[a].id > rows[b].id
    ensures multiset(rows)[rows[i]] == 1
  {
    assert rows == rows[..i] + [rows[i]] + rows[i + 1..];
    assert rows[i] !in rows[..i];
    assert rows[i] !in rows[i + 1..];
  }
}
