/**
 * Redis key construction for a post: `post:{id}:content` for the JSON
 * snapshot and `post:{id}:views` for the view counter.
 */
module CacheKeys {
  import opened Wrappers
  import opened Decimal

  const KeyPrefix := "post:"
  const ContentSuffix := ":content"
  const ViewsSuffix := ":views"

  /** The two key families the cache layer writes. */
  datatype KeyKind = Content | Views

  function Suffix(kind: KeyKind): string {
    match kind
    case Content => ContentSuffix
    case Views => ViewsSuffix
  }

  /** `get_post_cache_key`: a content key, which decodes back to its post id. */
  function PostCacheKey(postId: int): (k: string)
    ensures k == KeyFor(Content, postId)
    ensures ParseKey(k) == Some((Content, postId))
  {
    ParseKeyOfKeyFor(Content, postId);
    KeyPrefix + IntToString(postId) + ContentSuffix
  }

  /** `get_view_count_key`: a counter key, which decodes back to its post id. */
  function ViewCountKey(postId: int): (k: string)
    ensures k == KeyFor(Views, postId)
    ensures ParseKey(k) == Some((Views, postId))
  {
    ParseKeyOfKeyFor(Views, postId);
    KeyPrefix + IntToString(postId) + ViewsSuffix
  }

  function KeyFor(kind: KeyKind, postId: int): string {
    KeyPrefix + IntToString(postId) + Suffix(kind)
  }

  predicate HasPrefix(k: string) {
    |k| >= |KeyPrefix| && k[..|KeyPrefix|] == KeyPrefix
  }

  predicate HasSuffix(k: string, suffix: string) {
    |k| >= |KeyPrefix| + |suffix| && k[|k| - |suffix|..] == suffix
  }

  /** The middle part of a key between the prefix and a suffix of the given length. */
  function Middle(k: string, suffixLength: nat): string
    requires |k| >= |KeyPrefix| + suffixLength
  {
    k[|KeyPrefix|..|k| - suffixLength]
  }

  /** The key family `k` belongs to, judged by its prefix and suffix alone. */
  function KindOf(k: string): (r: Option<KeyKind>)
    ensures r.Some? ==> HasPrefix(k) && HasSuffix(k, Suffix(r.value))
  {
    if !HasPrefix(k) then None
    else if HasSuffix(k, ContentSuffix) then Some(Content)
    else if HasSuffix(k, ViewsSuffix) then Some(Views)
    else None
  }

  /** Which kind of key `k` is and for which post id, or `None` if the cache layer never builds `k`. */
  function ParseKey(k: string): (r: Option<(KeyKind, int)>)
  {
    match KindOf(k)
    case None => None
    case Some(kind) =>
      match ParseCanonicalInt(Middle(k, |Suffix(kind)|))
      case None => None
      case Some(n) => Some((kind, n))
  }

  lemma KeyParts(kind: KeyKind, postId: int)
    ensures var k := KeyFor(kind, postId);
      && |k| >= |KeyPrefix| + |Suffix(kind)|
      && k[..|KeyPrefix|] == KeyPrefix
      && k[|k| - |Suffix(kind)|..] == Suffix(kind)
      && Middle(k, |Suffix(kind)|) == IntToString(postId)
  {
  }

  /** Every key the cache layer builds decodes back to its kind and post id. */
  lemma {:induction false} ParseKeyOfKeyFor(kind: KeyKind, postId: int)
    ensures ParseKey(KeyFor(kind, postId)) == Some((kind, postId))
  {
    var k := KeyFor(kind, postId);
    KeyParts(kind, postId);
    IntToStringRoundTrip(postId);
    if kind == Views {
      // the last character is 's', never the 't' that ends ":content"
      assert k[|k| - 1] == 's';
      assert !HasSuffix(k, ContentSuffix);
    }
  }

  /** Conversely, anything that decodes was built by `KeyFor`. */
  lemma ParseKeyOnlyOfKeyFor(k: string)
    ensures ParseKey(k).Some? ==> k == KeyFor(ParseKey(k).value.0, ParseKey(k).value.1)
  {
    if ParseKey(k).Some? {
      var kind := KindOf(k).value;
      var n := ParseKey(k).value.1;
      var suffixLength := |Suffix(kind)|;
      assert ParseKey(k).value.0 == kind;
      assert IntToString(n) == Middle(k, suffixLength);
      assert k == k[..|KeyPrefix|] + k[|KeyPrefix|..|k| - suffixLength] + k[|k| - suffixLength..];
    }
  }

  /**
   * Distinct (kind, id) pairs give distinct keys: each key function is
   * injective in the id, and no content key is ever a view key.
   */
  lemma KeysInjectiveAndDisjoint(kind1: KeyKind, id1: int, kind2: KeyKind, id2: int)
    ensures KeyFor(kind1, id1) == KeyFor(kind2, id2) <==> kind1 == kind2 && id1 == id2
  {
    ParseKeyOfKeyFor(kind1, id1);
    ParseKeyOfKeyFor(kind2, id2);
  }

  lemma ContentAndViewKeysDistinct(id1: int, id2: int)
    ensures PostCacheKey(id1) != ViewCountKey(id2)
    ensures PostCacheKey(id1) == PostCacheKey(id2) ==> id1 == id2
    ensures ViewCountKey(id1) == ViewCountKey(id2) ==> id1 == id2
  {
    KeysInjectiveAndDisjoint(Content, id1, Views, id2);
    KeysInjectiveAndDisjoint(Content, id1, Content, id2);
    KeysInjectiveAndDisjoint(Views, id1, Views, id2);
  }
}
