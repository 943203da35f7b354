/** `find_codes` (src/main.rs:97-122) with its result cache: the cache is a
    map from normalised query to the ranked entries, read and written by each
    lookup. */
module Finder {
  import opened AsciiText
  import opened Scoring
  import opened Ranking

  class CodeFinder {
    /** The catalog rows, in the order of the resource. */
    const catalog: seq<CatalogRecord>
    /** The string-similarity metric the scorer uses. */
    const jaroWinkler: Metric
    /** The shared result cache, keyed by normalised query. */
    var cache: map<string, seq<AtcCode>>

    /** Every cached key is a non-empty normalised query, stored with the
        ranking computed for it. */
    ghost predicate Valid()
      reads this
    {
      forall key :: key in cache ==>
        key != [] && Normalize(key) == key && cache[key] == Rank(jaroWinkler, key, catalog)
    }

    /** A finder with an empty cache. */
    constructor (catalog: seq<CatalogRecord>, jaroWinkler: Metric)
      ensures this.catalog == catalog && this.jaroWinkler == jaroWinkler
      ensures cache == map[]
      ensures Valid()
    {
      this.catalog := catalog;
      this.jaroWinkler := jaroWinkler;
      cache := map[];
    }

    /** `find_codes(query, cache)`: an empty normalised query answers `[]`
        without touching the cache; a cached key answers its stored entries;
        otherwise the catalog is ranked and the result stored under the key. */
    method FindCodes(query: string) returns (entries: seq<AtcCode>)
      requires Valid()
      modifies this
      ensures Valid()
      ensures entries == if Normalize(query) == [] then [] else Rank(jaroWinkler, Normalize(query), catalog)
      ensures Normalize(query) == [] ==> cache == old(cache)
      ensures Normalize(query) in old(cache) ==> cache == old(cache) && entries == old(cache)[Normalize(query)]
      ensures Normalize(query) != [] && Normalize(query) !in old(cache) ==> cache == old(cache)[Normalize(query) := entries]
    {
      var key := Normalize(query);
      if key == [] {
        return [];
      }
      if key in cache {
        return cache[key];
      }
      entries := Rank(jaroWinkler, key, catalog);
      NormalizeIdempotent(query);
      ghost var before := cache;
      cache := cache[key := entries];
      forall k | k in cache
        ensures k != [] && Normalize(k) == k && cache[k] == Rank(jaroWinkler, k, catalog)
      {
        if k != key {
          assert k in before;
        }
      }
    }

    /** The cache may drop an entry at any time (capacity, time-to-live and
        idle expiry); the next lookup of that key is a miss. */
    method Evict(key: string)
      requires Valid()
      modifies this
      ensures Valid()
      ensures cache == old(cache) - {key}
    {
      cache := cache - {key};
    }
  }

  /** Lookups of `" N02BE "`, `"n02be"` and `"N02BE"` use one cache key. */
  lemma N02BEVariantsShareKey()
    ensures Normalize(" N02BE ") == Normalize("n02be") == Normalize("N02BE") == "n02be"
  {
    assert Lower("N02BE") == "n02be" == Lower("n02be");
    assert " N02BE " == " " + "N02BE" + " ";
    assert AllSpace(" ") && AllSpace("");
    QueryVariantsShareKey(" ", "N02BE", " ", "n02be");
    assert "n02be" == "" + "n02be" + "";
    QueryVariantsShareKey("", "n02be", "", "N02BE");
    assert Trim("n02be") == "n02be" by {
      TrimUnique("", "n02be", "");
    }
  }

  /** A second lookup of an equivalent query is answered from the cache: the
      first lookup leaves its entries stored under the shared key, and the
      second returns that stored value and leaves the cache as it was. */
  method LookupTwice(finder: CodeFinder, first: string, second: string)
      returns (a: seq<AtcCode>, b: seq<AtcCode>)
    requires finder.Valid()
    requires Normalize(first) == Normalize(second)
    modifies finder
    ensures finder.Valid()
    ensures a == b
    ensures finder.cache == if Normalize(first) == [] then old(finder.cache)
                            else old(finder.cache)[Normalize(first) := a]
    ensures Normalize(first) != [] ==> Normalize(first) in finder.cache && b == finder.cache[Normalize(first)]
  {
    a := finder.FindCodes(first);
    ghost var afterFirst := finder.cache;
    b := finder.FindCodes(second);
    assert Normalize(first) != [] ==> Normalize(second) in afterFirst && finder.cache == afterFirst;
  }
}
