/**
 * The durable store: the table of URL records, in insertion order, and the
 * queries the service runs against it.
 */
module Store {
  import opened Wrappers
  import Codes
  import Urls

  /** One row of the `URL` table (the surrogate id and created_at are not modelled). */
  datatype UrlRecord = UrlRecord(shortCode: string, originalUrl: string, clicks: nat)

  /** The statistics get_url_stats reports for one record. */
  datatype Stats = Stats(originalUrl: string, shortCode: string, clicks: nat)

  /**
   * `query(URL).filter(URL.short_code == code).first()`: the index of the
   * first row carrying `code`, or None when no row does.
   */
  function FindByCode(rows: seq<UrlRecord>, code: string): (r: Option<nat>)
    ensures r.Some? ==> r.value < |rows| && rows[r.value].shortCode == code
    ensures r.Some? ==> forall j :: 0 <= j < r.value ==> rows[j].shortCode != code
    ensures r.None? ==> forall j :: 0 <= j < |rows| ==> rows[j].shortCode != code
  {
    if |rows| == 0 then None
    else match FindByCode(rows[..|rows| - 1], code)
      case Some(i) => Some(i)
      case None => if rows[|rows| - 1].shortCode == code then Some(|rows| - 1) else None
  }

  /**
   * `query(URL).filter(URL.original_url == url).first()`: the index of the
   * first row for `url`, or None when no row has it.
   */
  function FindByUrl(rows: seq<UrlRecord>, url: string): (r: Option<nat>)
    ensures r.Some? ==> r.value < |rows| && rows[r.value].originalUrl == url
    ensures r.Some? ==> forall j :: 0 <= j < r.value ==> rows[j].originalUrl != url
    ensures r.None? ==> forall j :: 0 <= j < |rows| ==> rows[j].originalUrl != url
  {
    if |rows| == 0 then None
    else match FindByUrl(rows[..|rows| - 1], url)
      case Some(i) => Some(i)
      case None => if rows[|rows| - 1].originalUrl == url then Some(|rows| - 1) else None
  }

  /** True when some row already uses `code`. */
  predicate HasCode(rows: seq<UrlRecord>, code: string) {
    exists j :: 0 <= j < |rows| && rows[j].shortCode == code
  }

  /** No two rows share a short code (the uniqueness of `short_code`). */
  predicate UniqueCodes(rows: seq<UrlRecord>) {
    forall i, j :: 0 <= i < j < |rows| ==> rows[i].shortCode != rows[j].shortCode
  }

  /** No two rows share an original URL (the uniqueness of `original_url`). */
  predicate UniqueUrls(rows: seq<UrlRecord>) {
    forall i, j :: 0 <= i < j < |rows| ==> rows[i].originalUrl != rows[j].originalUrl
  }

  /** Every row holds a generated code and a normalised URL. */
  predicate WellFormedRows(rows: seq<UrlRecord>) {
    forall i :: 0 <= i < |rows| ==>
      Codes.IsCode(rows[i].shortCode) && Urls.Normalize(rows[i].originalUrl) == rows[i].originalUrl
  }

  /** The store invariant the service keeps. */
  predicate ValidStore(rows: seq<UrlRecord>) {
    UniqueCodes(rows) && UniqueUrls(rows) && WellFormedRows(rows)
  }

  /** A lookup by code finds the row exactly when some row uses the code. */
  lemma FindByCodeFinds(rows: seq<UrlRecord>, code: string)
    ensures FindByCode(rows, code).Some? <==> HasCode(rows, code)
  {
  }

  /** With unique codes the lookup's answer is the one row that carries the code. */
  lemma FindByCodeUnique(rows: seq<UrlRecord>, code: string, i: nat)
    requires UniqueCodes(rows) && i < |rows| && rows[i].shortCode == code
    ensures FindByCode(rows, code) == Some(i)
  {
  }

  /** Appending a row leaves every earlier lookup by code as it was. */
  lemma FindByCodeAppend(rows: seq<UrlRecord>, row: UrlRecord, code: string)
    ensures FindByCode(rows + [row], code) ==
      if FindByCode(rows, code).Some? then FindByCode(rows, code)
      else if row.shortCode == code then Some(|rows|) else None
  {
    assert (rows + [row])[..|rows|] == rows;
  }

  /** Appending a row leaves every earlier lookup by URL as it was. */
  lemma FindByUrlAppend(rows: seq<UrlRecord>, row: UrlRecord, url: string)
    ensures FindByUrl(rows + [row], url) ==
      if FindByUrl(rows, url).Some? then FindByUrl(rows, url)
      else if row.originalUrl == url then Some(|rows|) else None
  {
    assert (rows + [row])[..|rows|] == rows;
  }

  /** Lookups only look at codes and URLs, so a change of clicks does not move them. */
  lemma {:induction false} LookupsIgnoreClicks(rows: seq<UrlRecord>, rows': seq<UrlRecord>, code: string, url: string)
    requires |rows| == |rows'|
    requires forall j :: 0 <= j < |rows| ==>
      rows'[j].shortCode == rows[j].shortCode && rows'[j].originalUrl == rows[j].originalUrl
    ensures FindByCode(rows', code) == FindByCode(rows, code)
    ensures FindByUrl(rows', url) == FindByUrl(rows, url)
  {
    if |rows| > 0 {
      LookupsIgnoreClicks(rows[..|rows| - 1], rows'[..|rows| - 1], code, url);
    }
  }

  /**
   * The store after increment_clicks(code): the first row with `code` has
   * one more click; with no such row the store is as it was.
   */
  function Incremented(rows: seq<UrlRecord>, code: string): (r: seq<UrlRecord>)
    ensures |r| == |rows|
    ensures forall j :: 0 <= j < |rows| ==>
      r[j].shortCode == rows[j].shortCode && r[j].originalUrl == rows[j].originalUrl
  {
    match FindByCode(rows, code)
    case None => rows
    case Some(i) => rows[i := rows[i].(clicks := rows[i].clicks + 1)]
  }

  /**
   * Click accounting: the record for `code` gains exactly one click, every
   * other record keeps its clicks, and an unknown code changes nothing.
   */
  lemma IncrementAddsOneClick(rows: seq<UrlRecord>, code: string)
    requires UniqueCodes(rows)
    ensures forall j :: 0 <= j < |rows| ==>
      Incremented(rows, code)[j].clicks == rows[j].clicks + (if rows[j].shortCode == code then 1 else 0)
    ensures !HasCode(rows, code) ==> Incremented(rows, code) == rows
  {
  }

  /** Clicks never decrease under an increment. */
  lemma IncrementMonotonic(rows: seq<UrlRecord>, code: string)
    ensures forall j :: 0 <= j < |rows| ==> rows[j].clicks <= Incremented(rows, code)[j].clicks
  {
  }

  /** The store after `n` resolutions of `code`. */
  function IncrementedTimes(rows: seq<UrlRecord>, code: string, n: nat): (r: seq<UrlRecord>)
    ensures |r| == |rows|
  {
    if n == 0 then rows else Incremented(IncrementedTimes(rows, code, n - 1), code)
  }

  /**
   * Click monotonicity: after `n` resolutions of `code` its record has
   * exactly `n` more clicks, and every other record is unchanged.
   */
  lemma {:induction false} ClicksCountResolutions(rows: seq<UrlRecord>, code: string, n: nat)
    requires UniqueCodes(rows)
    ensures UniqueCodes(IncrementedTimes(rows, code, n))
    ensures forall j :: 0 <= j < |rows| ==>
      IncrementedTimes(rows, code, n)[j] ==
        rows[j].(clicks := rows[j].clicks + if rows[j].shortCode == code then n else 0)
  {
    if n > 0 {
      var prev := IncrementedTimes(rows, code, n - 1);
      ClicksCountResolutions(rows, code, n - 1);
      IncrementAddsOneClick(prev, code);
    }
  }

  /** A string that is not a generated code (such as `nonexistent`) is in no record. */
  lemma MalformedCodeNotFound(rows: seq<UrlRecord>, code: string)
    requires WellFormedRows(rows) && !Codes.IsCode(code)
    ensures FindByCode(rows, code).None?
  {
  }

  /** An increment keeps the store invariant. */
  lemma IncrementKeepsValid(rows: seq<UrlRecord>, code: string)
    requires ValidStore(rows)
    ensures ValidStore(Incremented(rows, code))
  {
  }

  /**
   * Inserting a record with a code and a URL that no row has yet, a
   * generated code and a normalised URL, keeps the store invariant.
   */
  lemma InsertKeepsValid(rows: seq<UrlRecord>, row: UrlRecord)
    requires ValidStore(rows)
    requires !HasCode(rows, row.shortCode) && FindByUrl(rows, row.originalUrl).None?
    requires Codes.IsCode(row.shortCode) && Urls.Normalize(row.originalUrl) == row.originalUrl
    ensures ValidStore(rows + [row])
  {
    var rows' := rows + [row];
    forall i, j | 0 <= i < j < |rows'| ensures rows'[i].shortCode != rows'[j].shortCode {
      if j == |rows| { assert rows'[i] == rows[i]; }
    }
  }

  /** The stats snapshot of one record: the URL as normalised on the way out. */
  function StatsOf(row: UrlRecord): (s: Stats)
    ensures s.shortCode == row.shortCode && s.clicks == row.clicks
    ensures s.originalUrl == Urls.Normalize(row.originalUrl) && !Urls.EndsWithSlash(s.originalUrl)
  {
    Stats(Urls.Normalize(row.originalUrl), row.shortCode, row.clicks)
  }

  /** The code attempt `draws` yields: one call of create_random_code() with its default length. */
  function Attempt(draws: nat -> Codes.Choice): (code: string)
    ensures Codes.IsCode(code)
  {
    Codes.RandomCodeIsCode(draws);
    Codes.CreateRandomCode(Codes.CodeLength, draws)
  }

  /** Attempt `k` draws a code that no row uses yet. */
  predicate AttemptFree(rows: seq<UrlRecord>, attempts: seq<nat -> Codes.Choice>, k: nat)
    requires k < |attempts|
  {
    !HasCode(rows, Attempt(attempts[k]))
  }

  /** Some attempt from the `from`-th on draws a code no row uses yet. */
  predicate SomeAttemptFree(rows: seq<UrlRecord>, attempts: seq<nat -> Codes.Choice>, from: nat) {
    exists k :: from <= k < |attempts| && AttemptFree(rows, attempts, k)
  }

  /**
   * The attempt create_unique_code settles on, searching from attempt `from`:
   * the first one whose code no row uses; every attempt before it collided.
   */
  function FirstFreeAttempt(rows: seq<UrlRecord>, attempts: seq<nat -> Codes.Choice>, from: nat): (k: nat)
    requires SomeAttemptFree(rows, attempts, from)
    ensures from <= k < |attempts| && AttemptFree(rows, attempts, k)
    ensures forall j :: from <= j < k ==> !AttemptFree(rows, attempts, j)
    decreases |attempts| - from
  {
    if AttemptFree(rows, attempts, from) then from
    else FirstFreeAttempt(rows, attempts, from + 1)
  }

  /** The code create_unique_code returns for the random source `attempts`. */
  function FirstFreeCode(rows: seq<UrlRecord>, attempts: seq<nat -> Codes.Choice>): (code: string)
    requires SomeAttemptFree(rows, attempts, 0)
    ensures Codes.IsCode(code) && !HasCode(rows, code)
  {
    Attempt(attempts[FirstFreeAttempt(rows, attempts, 0)])
  }
}
