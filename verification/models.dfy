/**
 * The `posts` table row and its dictionary projection.
 *
 * Timestamps come from an abstract clock: a `Timestamp` is a natural number
 * and its ISO rendering is a canonical decimal string, which, like
 * `datetime.isoformat`, is injective and can be read back.
 */
module Models {
  import opened Wrappers
  import opened Decimal

  type Timestamp = nat

  /** Column widths of `title` (String(255)) and `author` (String(100)). */
  const TitleMaxLength := 255
  const AuthorMaxLength := 100

  /**
   * One row. The text columns are NOT NULL, hence plain strings; the
   * timestamps are optional because `to_dict` handles them being unset.
   */
  datatype Post = Post(
    id: int,
    title: string,
    content: string,
    author: string,
    viewCount: nat,
    createdAt: Option<Timestamp>,
    updatedAt: Option<Timestamp>)

  predicate FitsColumns(p: Post) {
    |p.title| <= TitleMaxLength && |p.author| <= AuthorMaxLength
  }

  /** The row an INSERT writes: `view_count` defaults to 0, both timestamps to the insert time. */
  function Inserted(id: int, title: string, content: string, author: string, now: Timestamp): (p: Post)
    ensures p.id == id && p.title == title && p.content == content && p.author == author
    ensures p.viewCount == 0
    ensures p.createdAt == Some(now) && p.updatedAt == Some(now)
  {
    Post(id, title, content, author, 0, Some(now), Some(now))
  }

  /** `a` and `b` agree on every column except `updated_at`. */
  predicate SameColumns(a: Post, b: Post) {
    a.(updatedAt := b.updatedAt) == b
  }

  /**
   * Flushing an in-memory row whose attributes were set to those of `after`:
   * an UPDATE is emitted only when some column differs from `before`, and
   * only then does the `onupdate` hook stamp `updated_at`.
   */
  function Flush(before: Post, after: Post, now: Timestamp): (p: Post)
    ensures SameColumns(p, after)
    ensures SameColumns(before, after) ==> p.updatedAt == before.updatedAt
    ensures !SameColumns(before, after) ==> p.updatedAt == Some(now)
  {
    if SameColumns(before, after) then before else after.(updatedAt := Some(now))
  }

  /** Flushing the same assignment twice is the same as flushing it once: no second stamp. */
  lemma FlushIdempotent(before: Post, after: Post, now: Timestamp, later: Timestamp)
    ensures Flush(Flush(before, after, now), after, later) == Flush(before, after, now)
  {
  }

  /** JSON values a post dictionary holds. */
  datatype Json = JInt(i: int) | JStr(s: string) | JNull

  function IsoFormat(t: Timestamp): string {
    NatToString(t)
  }

  function ParseIso(s: string): (r: Option<Timestamp>)
    ensures r.Some? ==> IsoFormat(r.value) == s
  {
    if |s| > 0 && AllDigits(s) && NatToString(DigitsValue(s)) == s then Some(DigitsValue(s)) else None
  }

  lemma ParseIsoOfIsoFormat(t: Timestamp)
    ensures ParseIso(IsoFormat(t)) == Some(t)
  {
    DigitsValueOfNatToString(t);
  }

  function TimestampJson(t: Option<Timestamp>): Json {
    match t
    case None => JNull
    case Some(v) => JStr(IsoFormat(v))
  }

  const DictKeys: set<string> := {"id", "title", "content", "author", "view_count", "created_at", "updated_at"}

  /** `Post.to_dict`: exactly the seven column names, each bound to its column's value. */
  function ToDict(p: Post): (d: map<string, Json>)
    ensures d.Keys == DictKeys
    ensures d["id"] == JInt(p.id) && d["view_count"] == JInt(p.viewCount)
    ensures d["title"] == JStr(p.title) && d["content"] == JStr(p.content) && d["author"] == JStr(p.author)
    ensures d["created_at"] == JNull <==> p.createdAt.None?
    ensures d["updated_at"] == JNull <==> p.updatedAt.None?
    ensures p.createdAt.Some? ==> d["created_at"] == JStr(IsoFormat(p.createdAt.value))
    ensures p.updatedAt.Some? ==> d["updated_at"] == JStr(IsoFormat(p.updatedAt.value))
  {
    map[
      "id" := JInt(p.id),
      "title" := JStr(p.title),
      "content" := JStr(p.content),
      "author" := JStr(p.author),
      "view_count" := JInt(p.viewCount),
      "created_at" := TimestampJson(p.createdAt),
      "updated_at" := TimestampJson(p.updatedAt)
    ]
  }

  function TimestampOfJson(j: Json): Option<Option<Timestamp>> {
    match j
    case JNull => Some(None)
    case JStr(s) => (match ParseIso(s) case Some(t) => Some(Some(t)) case None => None)
    case JInt(_) => None
  }

  /** Reads a dictionary of the shape `to_dict` produces back into a row; `None` for any other shape. */
  function FromDict(d: map<string, Json>): (r: Option<Post>)
    ensures r.Some? ==> DictKeys <= d.Keys
  {
    if !(DictKeys <= d.Keys) then None
    else if !(d["id"].JInt? && d["title"].JStr? && d["content"].JStr? && d["author"].JStr?
              && d["view_count"].JInt? && d["view_count"].i >= 0) then None
    else
      match (TimestampOfJson(d["created_at"]), TimestampOfJson(d["updated_at"]))
      case (Some(c), Some(u)) =>
        Some(Post(d["id"].i, d["title"].s, d["content"].s, d["author"].s, d["view_count"].i, c, u))
      case _ => None
  }

  /**
   * A cached snapshot (the dictionary of a row, serialised and parsed back)
   * decodes to the very row it was made from.
   */
  lemma FromDictToDict(p: Post)
    ensures FromDict(ToDict(p)) == Some(p)
  {
    if p.createdAt.Some? {
      ParseIsoOfIsoFormat(p.createdAt.value);
    }
    if p.updatedAt.Some? {
      ParseIsoOfIsoFormat(p.updatedAt.value);
    }
  }
}
