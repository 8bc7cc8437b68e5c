/**
 * What callers of the service can rely on across several calls: the round
 * trip, idempotent creation, click counting, unknown codes, and a cache that
 * changes latency but never answers.
 */
module Scenarios {
  import opened Wrappers
  import Codes
  import Urls
  import opened Store
  import opened Cache
  import opened Service

  /** Resolving the code taken from the short URL that creation returned yields the normalised URL. */
  method CreateThenResolve(svc: UrlService, originalUrl: string, baseUrl: string,
                           createHit: bool, resolveHit: bool, attempts: seq<nat -> Codes.Choice>)
    returns (created: Result<ShortenedUrl, CreateError>, resolved: Option<string>)
    requires svc.Valid() && svc.validUrl(originalUrl)
    requires FindByUrl(svc.store, Urls.Normalize(originalUrl)).None? ==> SomeAttemptFree(svc.store, attempts, 0)
    modifies svc
    ensures svc.Valid()
    ensures created.Success? && resolved == Some(Urls.Normalize(originalUrl))
  {
    ghost var rows := svc.store;
    var u := Urls.Normalize(originalUrl);
    created := svc.CreateShortUrl(originalUrl, baseUrl, createHit, attempts);
    ghost var code: string;
    match FindByUrl(rows, u) {
      case Some(i) =>
        code := rows[i].shortCode;
        FindByCodeUnique(svc.store, code, i);
      case None =>
        code := FirstFreeCode(rows, attempts);
        FindByCodeUnique(svc.store, code, |rows|);
    }
    assert Codes.IsCode(code);
    Urls.CodeFromShortUrl(baseUrl, code);
    var shortCode := Urls.LastSegment(created.value.shortUrl);
    assert shortCode == code;
    resolved := svc.GetOriginalUrl(shortCode, resolveHit);
    Urls.NormalizeIdempotent(originalUrl);
  }

  /**
   * Creating twice with URLs that normalise alike (say with and without a
   * trailing slash) returns the same short URL and adds at most one record,
   * which is then the only record for that URL.
   */
  method CreateTwice(svc: UrlService, url1: string, url2: string, baseUrl: string,
                     hit1: bool, hit2: bool, attempts: seq<nat -> Codes.Choice>)
    returns (r1: Result<ShortenedUrl, CreateError>, r2: Result<ShortenedUrl, CreateError>)
    requires svc.Valid() && svc.validUrl(url1) && svc.validUrl(url2)
    requires Urls.Normalize(url1) == Urls.Normalize(url2)
    requires FindByUrl(svc.store, Urls.Normalize(url1)).None? ==> SomeAttemptFree(svc.store, attempts, 0)
    modifies svc
    ensures svc.Valid()
    ensures r1.Success? && r2 == r1
    ensures |svc.store| <= |old(svc.store)| + 1
    ensures FindByUrl(svc.store, Urls.Normalize(url1)).Some?
    ensures forall j :: 0 <= j < |svc.store| && svc.store[j].originalUrl == Urls.Normalize(url1) ==>
      j == FindByUrl(svc.store, Urls.Normalize(url1)).value
  {
    ghost var rows := svc.store;
    var u := Urls.Normalize(url1);
    r1 := svc.CreateShortUrl(url1, baseUrl, hit1, attempts);
    if FindByUrl(rows, u).None? {
      FindByUrlAppend(rows, UrlRecord(FirstFreeCode(rows, attempts), u, 0), u);
    }
    r2 := svc.CreateShortUrl(url2, baseUrl, hit2, attempts);
  }

  /** `https://example.com/` and `https://example.com` are shortened to the same code. */
  method TrailingSlashScenario(svc: UrlService, url: string, baseUrl: string,
                               hit1: bool, hit2: bool, attempts: seq<nat -> Codes.Choice>)
    returns (r1: Result<ShortenedUrl, CreateError>, r2: Result<ShortenedUrl, CreateError>)
    requires svc.Valid() && svc.validUrl(url + "/") && svc.validUrl(url)
    requires FindByUrl(svc.store, Urls.Normalize(url)).None? ==> SomeAttemptFree(svc.store, attempts, 0)
    modifies svc
    ensures svc.Valid()
    ensures r1.Success? && r2 == r1
  {
    Urls.NormalizeIgnoresTrailingSlashes(url, 1);
    assert url + Urls.Slashes(1) == url + "/";
    r1, r2 := CreateTwice(svc, url + "/", url, baseUrl, hit1, hit2, attempts);
  }

  /**
   * Stats right after creation report zero clicks; after three resolutions
   * they report three.
   */
  method ClickCountScenario(svc: UrlService, originalUrl: string, baseUrl: string,
                            hits: seq<bool>, attempts: seq<nat -> Codes.Choice>)
    returns (before: Option<Stats>, after: Option<Stats>)
    requires svc.Valid() && svc.validUrl(originalUrl) && |hits| == 4
    requires FindByUrl(svc.store, Urls.Normalize(originalUrl)).None?
    requires SomeAttemptFree(svc.store, attempts, 0)
    modifies svc
    ensures svc.Valid()
    ensures before.Some? && before.value.clicks == 0 && before.value.originalUrl == Urls.Normalize(originalUrl)
    ensures after.Some? && after.value.clicks == 3 && after.value.originalUrl == Urls.Normalize(originalUrl)
  {
    ghost var rows := svc.store;
    var created := svc.CreateShortUrl(originalUrl, baseUrl, hits[0], attempts);
    ghost var issued := FirstFreeCode(rows, attempts);
    Urls.CodeFromShortUrl(baseUrl, issued);
    var code := Urls.LastSegment(created.value.shortUrl);
    ghost var i := |rows|;
    FindByCodeUnique(svc.store, code, i);
    ghost var start := svc.store;
    before := svc.GetUrlStats(code);
    assert before == Some(StatsOf(start[i]));
    var r := svc.GetOriginalUrl(code, hits[1]);
    assert svc.store == IncrementedTimes(start, code, 1);
    r := svc.GetOriginalUrl(code, hits[2]);
    assert svc.store == IncrementedTimes(start, code, 2);
    r := svc.GetOriginalUrl(code, hits[3]);
    assert svc.store == IncrementedTimes(start, code, 3);
    ClicksCountResolutions(start, code, 3);
    assert svc.store[i].shortCode == code && svc.store[i].clicks == 3;
    FindByCodeUnique(svc.store, code, i);
    after := svc.GetUrlStats(code);
  }

  /** A code that was never issued is not found, by resolution or by stats, and counts nothing. */
  method NotFoundScenario(svc: UrlService, hit: bool) returns (resolved: Option<string>, stats: Option<Stats>)
    requires svc.Valid()
    modifies svc
    ensures resolved == None && stats == None
    ensures svc.store == old(svc.store) && svc.cache == old(svc.cache)
  {
    MalformedCodeNotFound(svc.store, "nonexistent");
    resolved := svc.GetOriginalUrl("nonexistent", hit);
    stats := svc.GetUrlStats("nonexistent");
  }

  /**
   * Cache transparency for resolution: two services over the same store,
   * whatever their (coherent) caches hold and whether their reads hit,
   * give the same answer and leave the same store.
   */
  method ResolveIsCacheTransparent(a: UrlService, b: UrlService, code: string, hitA: bool, hitB: bool)
    returns (ra: Option<string>, rb: Option<string>)
    requires a != b && a.Valid() && b.Valid() && a.store == b.store
    modifies a, b
    ensures ra == rb && a.store == b.store
  {
    ra := a.GetOriginalUrl(code, hitA);
    rb := b.GetOriginalUrl(code, hitB);
  }

  /** Cache transparency for creation: the same result and the same store, hit or miss. */
  method CreateIsCacheTransparent(a: UrlService, b: UrlService, originalUrl: string, baseUrl: string,
                                  hitA: bool, hitB: bool, attempts: seq<nat -> Codes.Choice>)
    returns (ra: Result<ShortenedUrl, CreateError>, rb: Result<ShortenedUrl, CreateError>)
    requires a != b && a.Valid() && b.Valid() && a.store == b.store
    requires a.validUrl(originalUrl) == b.validUrl(originalUrl)
    requires a.validUrl(originalUrl) && FindByUrl(a.store, Urls.Normalize(originalUrl)).None? ==>
      SomeAttemptFree(a.store, attempts, 0)
    modifies a, b
    ensures ra == rb && a.store == b.store
  {
    ra := a.CreateShortUrl(originalUrl, baseUrl, hitA, attempts);
    rb := b.CreateShortUrl(originalUrl, baseUrl, hitB, attempts);
  }
}
