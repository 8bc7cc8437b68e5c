/** The cache-aside resolution layer between the durable store and the cache. */
module Service {
  import opened Wrappers
  import Codes
  import Urls
  import opened Store
  import opened Cache

  /** The only error create_short_url raises: a ValueError for a URL the validator rejects. */
  datatype CreateError = InvalidUrl

  /** The document create_short_url returns. */
  datatype ShortenedUrl = ShortenedUrl(shortUrl: string, originalUrl: string)

  class UrlService {
    /** The URL validator (the `validators.url` library call), fixed for the service's lifetime. */
    const validUrl: string -> bool
    /** The durable store, the source of truth. */
    var store: seq<UrlRecord>
    /** The volatile cache, a disposable view of the store. */
    var cache: map<CacheKey, CacheValue>

    /** Codes and URLs are unique and well formed, and every cache entry is derived from the store. */
    ghost predicate Valid()
      reads this
    {
      ValidStore(store) && Coherent(store, cache)
    }

    constructor (validUrl: string -> bool, store: seq<UrlRecord>, cache: map<CacheKey, CacheValue>)
      requires ValidStore(store) && Coherent(store, cache)
      ensures Valid()
      ensures this.validUrl == validUrl && this.store == store && this.cache == cache
    {
      this.validUrl := validUrl;
      this.store := store;
      this.cache := cache;
    }

    /**
     * create_unique_code: draw codes attempt after attempt until one is not
     * in the store. The source loops until that happens; the model is
     * given a random source in which it does.
     */
    method CreateUniqueCode(attempts: seq<nat -> Codes.Choice>) returns (code: string)
      requires SomeAttemptFree(store, attempts, 0)
      ensures code == FirstFreeCode(store, attempts)
      ensures Codes.IsCode(code) && !HasCode(store, code)
    {
      var k := 0;
      while true
        invariant SomeAttemptFree(store, attempts, k)
        invariant FirstFreeAttempt(store, attempts, k) == FirstFreeAttempt(store, attempts, 0)
        decreases |attempts| - k
      {
        code := Attempt(attempts[k]);
        if FindByCode(store, code).None? {
          return;
        }
        k := k + 1;
      }
    }

    /**
     * create_short_url. A rejected URL raises and changes nothing. Otherwise
     * the URL is normalised and looked up in the cache, then in the store;
     * only when both miss is a new record with zero clicks inserted. The
     * outcome does not depend on whether the cache read hits.
     */
    method CreateShortUrl(originalUrl: string, baseUrl: string, hit: bool, attempts: seq<nat -> Codes.Choice>)
      returns (r: Result<ShortenedUrl, CreateError>)
      requires Valid()
      requires validUrl(originalUrl) && FindByUrl(store, Urls.Normalize(originalUrl)).None? ==>
        SomeAttemptFree(store, attempts, 0)
      modifies this
      ensures Valid()
      ensures !validUrl(originalUrl) ==>
        r == Failure(InvalidUrl) && store == old(store) && cache == old(cache)
      ensures validUrl(originalUrl) ==>
        var u := Urls.Normalize(originalUrl);
        r.Success? && r.value.originalUrl == u &&
        match FindByUrl(old(store), u)
        case Some(i) =>
          store == old(store) &&
          r.value.shortUrl == Urls.ShortUrl(baseUrl, old(store)[i].shortCode) &&
          cache == old(cache)[UrlKey(u) := UrlEntry(old(store)[i].shortCode, u)]
        case None =>
          var code := FirstFreeCode(old(store), attempts);
          store == old(store) + [UrlRecord(code, u, 0)] &&
          r.value.shortUrl == Urls.ShortUrl(baseUrl, code) &&
          cache == old(cache)[UrlKey(u) := UrlEntry(code, u)][CodeKey(code) := CodeEntry(u)]
    {
      if !validUrl(originalUrl) {
        return Failure(InvalidUrl);
      }
      var url := Urls.Normalize(originalUrl);
      var base := Urls.Normalize(baseUrl);

      var key := UrlKey(url);
      var cached := Get(cache, key, hit);
      if cached.Some? {
        assert EntryCoherent(store, key, cache[key]);
        return Success(ShortenedUrl(base + "/" + cached.value.shortCode, cached.value.originalUrl));
      }

      var found := FindByUrl(store, url);
      if found.Some? {
        var row := store[found.value];
        CoherentAfterSet(store, cache, key, UrlEntry(row.shortCode, row.originalUrl));
        cache := cache[key := UrlEntry(row.shortCode, row.originalUrl)];
        return Success(ShortenedUrl(base + "/" + row.shortCode, row.originalUrl));
      }

      ghost var rows, entries := store, cache;
      var code := CreateUniqueCode(attempts);
      var row := UrlRecord(code, url, 0);
      Urls.NormalizeIdempotent(originalUrl);
      InsertKeepsValid(store, row);
      FindByUrlAppend(store, row, url);
      FindByCodeAppend(store, row, code);
      FindByCodeFinds(store, code);
      CoherentAfterInsert(store, cache, row);
      store := store + [row];
      CoherentAfterSet(store, cache, key, UrlEntry(code, url));
      cache := cache[key := UrlEntry(code, url)];
      CoherentAfterSet(store, cache, CodeKey(code), CodeEntry(url));
      cache := cache[CodeKey(code) := CodeEntry(url)];
      assert code == FirstFreeCode(rows, attempts);
      assert cache == entries[UrlKey(url) := UrlEntry(code, url)][CodeKey(code) := CodeEntry(url)];
      return Success(ShortenedUrl(base + "/" + code, url));
    }

    /**
     * increment_clicks: the record for `code` gains one click and its stats
     * entry is overwritten with JSON null; an unknown code changes nothing.
     * Afterwards a read of `stats:<code>` misses.
     */
    method IncrementClicks(code: string)
      requires Valid()
      modifies this
      ensures Valid()
      ensures store == Incremented(old(store), code)
      ensures cache == if HasCode(old(store), code) then old(cache)[StatsKey(code) := Null] else old(cache)
      ensures Get(cache, StatsKey(code), true).None?
    {
      ghost var rows, entries := store, cache;
      CoherentAfterIncrement(store, cache, code);
      IncrementKeepsValid(store, code);
      FindByCodeFinds(store, code);
      var found := FindByCode(store, code);
      if found.Some? {
        var i := found.value;
        store := store[i := store[i].(clicks := store[i].clicks + 1)];
        cache := cache[StatsKey(code) := Null];
      }
      assert store == Incremented(rows, code);
      assert cache == if HasCode(rows, code) then entries[StatsKey(code) := Null] else entries;
    }

    /**
     * get_original_url: resolve `code` through the cache, falling back to
     * the store, and count the click. The answer, the new store and the new
     * cache are the same whether or not the cache read hits.
     */
    method GetOriginalUrl(code: string, hit: bool) returns (r: Option<string>)
      requires Valid()
      modifies this
      ensures Valid()
      ensures store == Incremented(old(store), code)
      ensures match FindByCode(old(store), code)
        case None => r == None && cache == old(cache)
        case Some(i) =>
          r == Some(Urls.Normalize(old(store)[i].originalUrl)) &&
          cache == old(cache)[CodeKey(code) := CodeEntry(old(store)[i].originalUrl)][StatsKey(code) := Null]
    {
      var key := CodeKey(code);
      var cached := Get(cache, key, hit);
      if cached.Some? {
        assert EntryCoherent(store, key, cache[key]);
        IncrementClicks(code);
        return Some(Urls.Normalize(cached.value.originalUrl));
      }

      var found := FindByCode(store, code);
      if found.None? {
        FindByCodeFinds(store, code);
        return None;
      }
      var row := store[found.value];
      cache := cache[key := CodeEntry(row.originalUrl)];
      IncrementClicks(code);
      return Some(Urls.Normalize(row.originalUrl));
    }

    /**
     * get_url_stats: read the record from the store, never the cache, and
     * leave a snapshot under `stats:<code>`. The store is not changed.
     */
    method GetUrlStats(code: string) returns (r: Option<Stats>)
      requires Valid()
      modifies this`cache
      ensures Valid()
      ensures store == old(store)
      ensures match FindByCode(store, code)
        case None => r == None && cache == old(cache)
        case Some(i) =>
          r == Some(StatsOf(store[i])) && cache == old(cache)[StatsKey(code) := StatsEntry(StatsOf(store[i]))]
    {
      var found := FindByCode(store, code);
      if found.None? {
        return None;
      }
      var stats := StatsOf(store[found.value]);
      cache := cache[StatsKey(code) := StatsEntry(stats)];
      return Some(stats);
    }
  }
}
