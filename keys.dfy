/**
 * Key builders (`packages/core/src/keys.ts`). The branded key types of the
 * source carry no runtime check, so here they are plain strings.
 */
module Keys {
  import opened JsString

  /** `cacheKey(...parts)`: the parts joined with `":"`. */
  function CacheKey(parts: seq<string>): string {
    Join(parts, ":")
  }

  /** `rateBucketKey(apiKey)`: `"rl:" + apiKey`. */
  function RateBucketKey(apiKey: string): string {
    "rl:" + apiKey
  }

  /** `kvKey(ns, id)`: `ns + ":" + id`. */
  function KvKey(ns: string, id: string): string {
    ns + ":" + id
  }

  /** No parts give the empty key, one part gives the part itself. */
  lemma CacheKeyShortLists(p: string)
    ensures CacheKey([]) == ""
    ensures CacheKey([p]) == p
  {
  }

  /** A namespaced key is the cache key of its two parts. */
  lemma KvKeyIsCacheKey(ns: string, id: string)
    ensures KvKey(ns, id) == CacheKey([ns, id])
  {
    assert [ns, id][1..] == [id];
    assert Join([id], ":") == id;
  }

  /** Parts without `":"` can be recovered from their cache key, so distinct such part lists give distinct keys. */
  lemma CacheKeyRecoversParts(parts: seq<string>)
    requires |parts| >= 1
    requires forall k :: 0 <= k < |parts| ==> ':' !in parts[k]
    ensures Split(CacheKey(parts), ':') == parts
  {
    SplitJoin(parts, ':');
  }

  /** Distinct API keys get distinct rate buckets. */
  lemma RateBucketKeyInjective(a: string, b: string)
    ensures RateBucketKey(a) == RateBucketKey(b) ==> a == b
  {
    if RateBucketKey(a) == RateBucketKey(b) {
      assert a == RateBucketKey(a)[3..];
    }
  }
}
