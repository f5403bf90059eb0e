/**
 * The genre reference table and its process-wide cache. The cache is a map
 * with at most one entry, under the key "genres", filled by a successful
 * load. Calls are modelled one after the other: here a filled cache is never
 * replaced. Two overlapping calls in the bot can both miss, both load the
 * table, and the later store then replaces the earlier one.
 */
module Genres {
  import opened Wrappers

  datatype Genre = Genre(id: string, name: string)

  const CacheKey := "genres"

  class Cache {
    var entries: map<string, seq<Genre>>
    /** How many times the genre table was requested from the API. */
    ghost var fetches: nat

    ghost predicate Valid()
      reads this
    {
      entries.Keys <= {CacheKey}
    }

    constructor ()
      ensures Valid() && entries == map[] && fetches == 0
    {
      entries := map[];
      fetches := 0;
    }

    /**
     * `genres()`: a hit returns the stored table without a request; a miss
     * requests the table, whose outcome is `response` (None when the request
     * fails), stores it on success and returns it. A failed request leaves the
     * cache as it was.
     */
    method Genres(response: Option<seq<Genre>>) returns (r: Option<seq<Genre>>)
      requires Valid()
      modifies this
      ensures Valid()
      ensures CacheKey in old(entries) ==>
                r == Some(old(entries)[CacheKey]) && entries == old(entries) && fetches == old(fetches)
      ensures CacheKey !in old(entries) ==> r == response && fetches == old(fetches) + 1
      ensures CacheKey !in old(entries) && response.Some? ==> entries == old(entries)[CacheKey := response.value]
      ensures CacheKey !in old(entries) && response.None? ==> entries == old(entries)
    {
      if CacheKey in entries {
        return Some(entries[CacheKey]);
      }
      fetches := fetches + 1;
      match response {
        case None =>
          return None;
        case Some(data) =>
          entries := entries[CacheKey := data];
          return Some(data);
      }
    }
  }

  /**
   * Two calls in a row: once either has succeeded the entry is fixed, the
   * second call returns what the first returned, and at most one request is
   * made in all.
   */
  method CallTwice(cache: Cache, first: Option<seq<Genre>>, second: Option<seq<Genre>>)
    returns (r1: Option<seq<Genre>>, r2: Option<seq<Genre>>)
    requires cache.Valid() && first.Some?
    modifies cache
    ensures cache.Valid()
    ensures r1.Some? && r2 == r1
    ensures cache.entries == map[CacheKey := r1.value]
    ensures cache.fetches <= old(cache.fetches) + 1
    ensures CacheKey !in old(cache.entries) ==> r1 == first && cache.fetches == old(cache.fetches) + 1
    ensures CacheKey in old(cache.entries) ==> r1 == Some(old(cache.entries)[CacheKey]) && cache.fetches == old(cache.fetches)
  {
    r1 := cache.Genres(first);
    r2 := cache.Genres(second);
  }
}
