/**
 * The volatile cache: typed keys for the three key families the service
 * uses, the JSON values stored under them, and a read that may miss.
 */
module Cache {
  import opened Wrappers
  import Store

  /** `url:<original_url>`, `code:<short_code>` and `stats:<short_code>`. */
  datatype CacheKey = UrlKey(url: string) | CodeKey(code: string) | StatsKey(code: string)

  /** The JSON documents stored under those keys; `Null` is a stored JSON `null`. */
  datatype CacheValue =
    | Null
    | UrlEntry(shortCode: string, originalUrl: string)
    | CodeEntry(originalUrl: string)
    | StatsEntry(stats: Store.Stats)

  /** The string key the service builds with an f-string for `key`. */
  function KeyString(key: CacheKey): (s: string)
    ensures ParseKey(s) == Some(key)
  {
    match key
    case UrlKey(u) =>
      var s := "url:" + u;
      assert s[..4] == "url:" && s[4..] == u;
      s
    case CodeKey(c) =>
      var s := "code:" + c;
      assert s[0] == 'c' && s[..5] == "code:" && s[5..] == c;
      s
    case StatsKey(c) =>
      var s := "stats:" + c;
      assert s[0] == 's' && s[..6] == "stats:" && s[6..] == c;
      s
  }

  /** Reads a typed key back from its string form by its prefix; None for a foreign key. */
  function ParseKey(s: string): Option<CacheKey> {
    if |s| >= 4 && s[..4] == "url:" then Some(UrlKey(s[4..]))
    else if |s| >= 5 && s[..5] == "code:" then Some(CodeKey(s[5..]))
    else if |s| >= 6 && s[..6] == "stats:" then Some(StatsKey(s[6..]))
    else None
  }

  /**
   * The prefixes keep the three key families apart: two typed keys give the
   * same string only when they are the same key, so the typed map loses nothing.
   */
  lemma KeyStringInjective(k1: CacheKey, k2: CacheKey)
    requires KeyString(k1) == KeyString(k2)
    ensures k1 == k2
  {
    var s := KeyString(k1);
    assert s[0] == KeyString(k2)[0];
    match k1
    case UrlKey(u) =>
      assert k2.UrlKey?;
      assert u == s[4..] == k2.url;
    case CodeKey(c) =>
      assert k2.CodeKey?;
      assert c == s[5..] == k2.code;
    case StatsKey(c) =>
      assert k2.StatsKey?;
      assert c == s[6..] == k2.code;
  }

  /**
   * get_cache(key): the stored value when the read succeeds (`hit`) and the
   * key holds a non-null document; a miss otherwise. A `false` hit stands for
   * expiry and for a cache failure that get_cache swallows.
   */
  function Get(cache: map<CacheKey, CacheValue>, key: CacheKey, hit: bool): (r: Option<CacheValue>)
    ensures r.Some? <==> hit && key in cache && cache[key] != Null
    ensures r.Some? ==> r.value == cache[key]
  {
    if hit && key in cache && cache[key] != Null then Some(cache[key]) else None
  }

  /** One cache entry agrees with the store it was derived from. */
  predicate EntryCoherent(rows: seq<Store.UrlRecord>, key: CacheKey, value: CacheValue) {
    match key
    case UrlKey(u) =>
      Store.FindByUrl(rows, u).Some? &&
      value == UrlEntry(rows[Store.FindByUrl(rows, u).value].shortCode, u)
    case CodeKey(c) =>
      Store.FindByCode(rows, c).Some? &&
      value == CodeEntry(rows[Store.FindByCode(rows, c).value].originalUrl)
    case StatsKey(c) =>
      value == Null ||
      (Store.FindByCode(rows, c).Some? &&
       value == StatsEntry(Store.StatsOf(rows[Store.FindByCode(rows, c).value])))
  }

  /** Every cache entry is a derived view of the store. */
  predicate Coherent(rows: seq<Store.UrlRecord>, cache: map<CacheKey, CacheValue>) {
    forall key :: key in cache ==> EntryCoherent(rows, key, cache[key])
  }

  /** A cache whose entries are coherent answers every hit as the store would. */
  lemma HitAgreesWithStore(rows: seq<Store.UrlRecord>, cache: map<CacheKey, CacheValue>, code: string, hit: bool)
    requires Coherent(rows, cache)
    ensures Get(cache, CodeKey(code), hit).Some? ==>
      Store.FindByCode(rows, code).Some? &&
      Get(cache, CodeKey(code), hit).value == CodeEntry(rows[Store.FindByCode(rows, code).value].originalUrl)
  {
  }

  /** Writing an entry derived from the store keeps the cache coherent. */
  lemma CoherentAfterSet(rows: seq<Store.UrlRecord>, cache: map<CacheKey, CacheValue>, key: CacheKey, value: CacheValue)
    requires Coherent(rows, cache) && EntryCoherent(rows, key, value)
    ensures Coherent(rows, cache[key := value])
  {
  }

  /** Inserting a record keeps every existing entry coherent: records are only ever appended. */
  lemma CoherentAfterInsert(rows: seq<Store.UrlRecord>, cache: map<CacheKey, CacheValue>, row: Store.UrlRecord)
    requires Coherent(rows, cache)
    ensures Coherent(rows + [row], cache)
  {
    forall key | key in cache ensures EntryCoherent(rows + [row], key, cache[key]) {
      match key
      case UrlKey(u) => Store.FindByUrlAppend(rows, row, u);
      case CodeKey(c) => Store.FindByCodeAppend(rows, row, c);
      case StatsKey(c) => Store.FindByCodeAppend(rows, row, c);
    }
  }

  /**
   * An increment changes one record's clicks; invalidating that record's
   * stats entry is exactly what keeps the cache coherent.
   */
  lemma CoherentAfterIncrement(rows: seq<Store.UrlRecord>, cache: map<CacheKey, CacheValue>, code: string)
    requires Store.ValidStore(rows) && Coherent(rows, cache)
    ensures Coherent(Store.Incremented(rows, code),
      if Store.HasCode(rows, code) then cache[StatsKey(code) := Null] else cache)
  {
    var rows' := Store.Incremented(rows, code);
    var cache' := if Store.HasCode(rows, code) then cache[StatsKey(code) := Null] else cache;
    forall key | key in cache' ensures EntryCoherent(rows', key, cache'[key]) {
      match key
      case UrlKey(u) => Store.LookupsIgnoreClicks(rows, rows', code, u);
      case CodeKey(c) => Store.LookupsIgnoreClicks(rows, rows', c, "");
      case StatsKey(c) =>
        Store.LookupsIgnoreClicks(rows, rows', c, "");
        if c != code && cache'[key] != Null {
          var i := Store.FindByCode(rows, c).value;
          Store.IncrementAddsOneClick(rows, code);
        }
    }
  }
}
