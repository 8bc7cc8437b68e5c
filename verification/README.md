# shortify URL service: a Dafny model of the cache-aside resolution layer

This project models `URLService` from the shortify URL shortener. The service maps long URLs to short codes and resolves the codes back, counting clicks. It sits between two stores:

- the durable store of URL records (short code, original URL, clicks), which is the source of truth;
- a volatile key/value cache with `url:`, `code:` and `stats:` keys, whose reads may miss at any time.

The modules follow the service's components:

- `Codes` (codes.dfy): the 62-symbol alphabet and `create_random_code`.
- `Urls` (urls.dfy): `normalize_url` (`rstrip('/')`), the short-URL composition `base + "/" + code`, and taking the code back out of a short URL.
- `Store` (store.dfy): URL records and the table's invariant (unique codes, unique URLs, well-formed rows).
  - The table is a sequence of rows. The lookups return the first matching row, but the invariant allows at most one row per code and per URL, so the order of the rows never decides a lookup. SQL's `.first()` without `ORDER BY` promises no order.
  - Also here: the two lookups, the click increment, the stats snapshot, and the search that `create_unique_code` performs.
- `Cache` (cache.dfy): typed cache keys and the JSON values stored under them.
  - The key-string builder is proved injective.
  - A cache read may miss.
  - The coherence invariant says every cache entry is derived from the store.
- `Service` (service.dfy): the `UrlService` class.
  - Fields: `store` (the table), `cache` (the key/value map) and the injected URL validator.
  - One method per operation that touches the store or the cache. `create_random_code` and `normalize_url` touch neither, so they are the functions `Codes.CreateRandomCode` and `Urls.Normalize`.
  - Each state-changing method is proved to keep `Valid()` (store invariant plus cache coherence). `CreateUniqueCode` only reads the store.
  - Each method's `ensures` gives its result and the new state as functions of the old state. None of them mentions whether the cache read hit, so the cache changes latency and never answers.
- `Scenarios` (scenarios.dfy): client methods proving properties that span several calls.
  - The round trip from creation to resolution.
  - Idempotent creation, including the trailing-slash case.
  - Click counting after creation and three resolutions.
  - Unknown codes.
  - Cache transparency between two services with the same store and different caches.

Non-deterministic collaborators are parameters:

- `validators.url` is the class constant `validUrl: string -> bool`, given at construction.
- `random.choice` is a draw stream `nat -> Choice`, where each draw is an index into the alphabet. `create_unique_code` receives a sequence of such streams, one per attempt.
- Whether a cache read succeeds is a `hit: bool` argument. A miss stands for an expired entry, an absent entry, or a failure that `get_cache` swallows.

Three behaviours of the source are easy to misread. The model follows the code:

- Invalidating `stats:<code>` after an increment writes a JSON `null` under the key rather than deleting it. `get_cache` reads that `null` back as a miss.
- Creation does not catch a duplicate-code insert and retry. `create_unique_code`'s check against the store is the only guard.
- Resolution on a cache hit calls `increment_clicks`, which queries the store again. The cached entry is not used for the count.

## Model

| member | source | states |
|---|---|---|
| Codes.AlphabetFacts | app/services/url_service.py:15 | the alphabet `ascii_letters + digits` has 62 symbols, none of them `/` |
| Codes.CreateRandomCode | app/services/url_service.py:13-16 | the code has exactly `length` characters; character `i` is the alphabet symbol picked by draw `i` |
| Codes.RandomCodeIsCode | app/services/url_service.py:13-16 | a code of the default length 6 is a well-formed code: 6 symbols of the alphabet |
| Codes.CodeHasNoSlash | app/services/url_service.py:15 | a well-formed code contains no `/` |
| Urls.Normalize | app/services/url_service.py:25-27 | the result is a prefix of the input, does not end in `/`, and the input differs from it only by trailing slashes |
| Urls.NormalizeUnique | app/services/url_service.py:25-27 | those three properties determine the result uniquely (the converse of Normalize's contract) |
| Urls.NormalizeIdempotent | app/services/url_service.py:25-27 | normalising twice equals normalising once |
| Urls.NormalizeIgnoresTrailingSlashes | app/services/url_service.py:34 | a URL and the same URL followed by any number of slashes normalise alike |
| Urls.ShortUrl | app/services/url_service.py:76-79 | the short URL ends with the code, after exactly one `/`, and what comes before the code normalises to the normalised base URL |
| Urls.LastSegment | app/tests/test_main.py:36 | the `split("/")[-1]` segment is a slash-free suffix of the string, preceded by a `/` whenever it is not the whole string |
| Urls.CodeFromShortUrl | app/services/url_service.py:76-79 | the last segment of the returned short URL is exactly the code |
| Store.FindByCode | app/services/url_service.py:83 | the lookup by short code gives the first row with that code, or None exactly when no row has it |
| Store.FindByUrl | app/services/url_service.py:45 | the lookup by original URL gives the first row with that URL, or None exactly when no row has it |
| Store.FindByCodeFinds | app/services/url_service.py:22 | the lookup by code finds a row exactly when some row uses the code |
| Store.FindByCodeUnique | app/services/url_service.py:100 | with unique codes, the lookup returns the one row carrying the code |
| Store.FindByCodeAppend | app/services/url_service.py:63-64 | inserting a row leaves earlier lookups by code unchanged and makes the new code findable |
| Store.FindByUrlAppend | app/services/url_service.py:63-64 | inserting a row leaves earlier lookups by URL unchanged and makes the new URL findable |
| Store.LookupsIgnoreClicks | app/services/url_service.py:85 | changing clicks moves no lookup by code or by URL |
| Store.Incremented | app/services/url_service.py:83-86 | an increment changes no code or URL and keeps the number of rows |
| Store.IncrementAddsOneClick | app/services/url_service.py:81-86 | the record for the code gains exactly one click; every other record keeps its clicks; an unknown code changes nothing |
| Store.IncrementMonotonic | app/services/url_service.py:85 | clicks never decrease |
| Store.IncrementKeepsValid | app/services/url_service.py:81-86 | an increment keeps codes and URLs unique and rows well formed |
| Store.ClicksCountResolutions | app/services/url_service.py:81-86 | after `n` increments of a code (each resolution makes one, at lines 97 and 108), its record has exactly `n` more clicks and every other record is unchanged |
| Store.MalformedCodeNotFound | app/tests/test_main.py:56-57 | a string that is not a generated code (such as the test's `nonexistent`) is in no record |
| Store.InsertKeepsValid | app/services/url_service.py:57-65 | inserting a record with a fresh code, an unseen URL and a normalised URL keeps the store invariant |
| Store.StatsOf | app/services/url_service.py:118-123 | the snapshot carries the record's code, its click count, and its URL normalised (so without a trailing slash) |
| Store.Attempt | app/services/url_service.py:21 | each attempt of create_unique_code yields a well-formed code |
| Store.FirstFreeAttempt | app/services/url_service.py:18-23 | the chosen attempt draws a code no row uses, and every attempt before it drew a code already in use |
| Store.FirstFreeCode | app/services/url_service.py:18-23 | the code create_unique_code returns is well formed and used by no record |
| Cache.KeyString | app/services/url_service.py:37 | the `url:`, `code:` and `stats:` key strings are read back, by their prefix, as the typed key they were built from |
| Cache.KeyStringInjective | app/services/url_service.py:37 | `url:`, `code:` and `stats:` keys built from different typed keys are different strings, so typed keys lose nothing |
| Cache.Get | app/cache/redis_config.py:26-32 | a read returns the stored document exactly when it succeeds and the key holds a non-null document; otherwise it misses |
| Cache.HitAgreesWithStore | app/services/url_service.py:93-98 | a hit on `code:<c>` in a coherent cache holds the original URL of the store's record for `c` |
| Cache.CoherentAfterSet | app/services/url_service.py:48-51 | writing an entry derived from the store keeps the cache coherent |
| Cache.CoherentAfterInsert | app/services/url_service.py:57-65 | inserting a record keeps every existing cache entry coherent |
| Cache.CoherentAfterIncrement | app/services/url_service.py:84-89 | after an increment, invalidating the record's stats entry is enough to keep the cache coherent |
| Service.UrlService.constructor | app/services/url_service.py:10-11 | the service starts over a valid store and a coherent cache |
| Service.UrlService.CreateUniqueCode | app/services/url_service.py:18-23 | returns the first attempted code not in the store: a well-formed code no record uses |
| Service.UrlService.CreateShortUrl | app/services/url_service.py:29-79 | see the list below the table |
| Service.UrlService.IncrementClicks | app/services/url_service.py:81-89 | see the list below the table |
| Service.UrlService.GetOriginalUrl | app/services/url_service.py:91-110 | see the list below the table |
| Service.UrlService.GetUrlStats | app/services/url_service.py:112-128 | see the list below the table |
| Scenarios.CreateThenResolve | app/tests/test_main.py:31-40 | resolving the code taken from the short URL returned by creation yields the normalised URL |
| Scenarios.CreateTwice | app/services/url_service.py:37-55 | creating twice with URLs that normalise alike returns the same result, adds at most one record, and leaves exactly one record for the URL |
| Scenarios.TrailingSlashScenario | app/services/url_service.py:34 | a URL with and without a trailing slash is shortened to the same short URL |
| Scenarios.ClickCountScenario | app/tests/test_main.py:42-54 | stats report the normalised created URL and 0 clicks right after creation, as the test asserts; the model adds that, after three resolutions (app/services/url_service.py:81-86), they report the same URL with 3 clicks |
| Scenarios.NotFoundScenario | app/tests/test_main.py:56-57 | resolving `nonexistent`, as the test does, gives None and changes nothing; the model adds that asking its stats also gives None |
| Scenarios.ResolveIsCacheTransparent | app/services/url_service.py:91-110 | two services over the same store give the same answer and leave the same store, whatever coherent entries their caches hold and whether their reads hit |
| Scenarios.CreateIsCacheTransparent | app/services/url_service.py:29-79 | creation gives the same result and leaves the same store whether or not the cache read hits |

What the four service methods' contracts state:

- **CreateShortUrl**
  - A URL the validator rejects gives `InvalidUrl` and changes neither the store nor the cache.
  - A URL that is already stored:
    - adds no record;
    - returns `normalize(base) + "/" + <stored code>`;
    - fills the `url:` entry from the store.
  - A new URL:
    - appends one record with the first free code and 0 clicks;
    - sets the `url:` and `code:` entries;
    - returns `normalize(base) + "/" + <new code>`.
  - In every case the returned original URL is the normalised input, and the invariant is kept.
- **IncrementClicks**
  - The store becomes `Incremented(old store, code)`.
  - When the code exists, `stats:<code>` is overwritten with null.
  - Afterwards a read of `stats:<code>` misses.
  - The invariant is kept.
- **GetOriginalUrl**
  - An unknown code gives None and changes nothing.
  - Otherwise it returns the normalised stored URL and counts the click exactly once.
  - The `code:` entry then holds the stored URL and `stats:<code>` is invalidated.
  - All of this is independent of whether the cache read hits.
- **GetUrlStats**
  - An unknown code gives None and changes nothing.
  - Otherwise it returns the record's snapshot, with its stored clicks, and writes it under `stats:<code>` (the intended write; see "## Left out").
  - The store is never modified.

## Left out

- HTTP transport (app/main.py), the pydantic schemas (app/schemas/url.py) and the test fixtures: no logic of the service's own.
- The Redis client, JSON encoding, the TTL values (`CACHE_TTL`, `ttl=300`) and `clear_cache`/`flushall`.
  - Expiry and cache failures on reads are the `hit` argument.
- A cache write that `set_cache` silently drops is not modelled; writes always succeed in the model.
  - For `url:` and `code:` entries a dropped write has the same effect as a later miss.
  - A dropped invalidation of `stats:<code>` would leave an outdated snapshot under that key. No operation of the service reads `stats:` entries.
- The surrogate `id` and the `created_at` timestamp of a record, and `created_at` in the stats snapshot. Both are assigned by the database.
- The SQLAlchemy session mechanics (`add`, `commit`, `refresh`).
- Errors raised by the database, such as a unique-constraint violation or a lost connection.
- Concurrency: the check-then-insert race on codes and the lost-update race on clicks. The model is single-threaded.
- `clicks or 0`: clicks are a `nat` in the model and never missing.
- Service.UrlService.CreateUniqueCode: only runs in which some attempt of the random source draws a free code are modelled. The source's `while True` loop runs forever otherwise.
- Service.UrlService.CreateShortUrl: requires such a random source when the URL is new. This is the same restriction.
- Service.UrlService.GetUrlStats: the contract says the snapshot is written under `stats:<code>`, the evident intent of app/services/url_service.py:125-126. As written, the snapshot dict also carries `created_at`, which the schema declares a `datetime`. `json.dumps` in `set_cache` cannot encode a datetime, and `set_cache` swallows the error. So in the source the `stats:` write most likely never takes effect and the cache keeps its old entry. The model has no `created_at` and no JSON encoding, so it does not show this. It changes no answer of the service, because nothing reads `stats:` entries.
- Service.UrlService.GetOriginalUrl: a cache hit for a code whose record has left the store cannot happen in the model, because records are never deleted and the cache is coherent. The source would return the cached URL and count nothing.
- The validator is any function of the URL. What `validators.url` accepts is not modelled.
