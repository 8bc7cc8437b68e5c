/** URL strings: trailing-slash normalisation and short-URL composition. */
module Urls {
  import Codes

  /** True when `s` ends with the path separator. */
  predicate EndsWithSlash(s: string) {
    |s| > 0 && s[|s| - 1] == '/'
  }

  /**
   * normalize_url: Python's `url.rstrip('/')`. The result is the input with
   * its run of trailing slashes removed, and nothing else changed.
   */
  function Normalize(url: string): (r: string)
    ensures r <= url
    ensures !EndsWithSlash(r)
    ensures forall i :: |r| <= i < |url| ==> url[i] == '/'
  {
    if EndsWithSlash(url) then Normalize(url[..|url| - 1]) else url
  }

  /** The three properties of Normalize's contract determine its result. */
  lemma {:induction false} NormalizeUnique(url: string, r: string)
    requires r <= url && !EndsWithSlash(r)
    requires forall i :: |r| <= i < |url| ==> url[i] == '/'
    ensures Normalize(url) == r
  {
    if |url| > |r| {
      assert EndsWithSlash(url);
      assert r <= url[..|url| - 1];
      NormalizeUnique(url[..|url| - 1], r);
    } else {
      assert r == url;
    }
  }

  /** Normalising twice is normalising once. */
  lemma NormalizeIdempotent(url: string)
    ensures Normalize(Normalize(url)) == Normalize(url)
  {
  }

  /** `https://example.com/` and `https://example.com` name the same stored URL. */
  lemma {:induction false} NormalizeIgnoresTrailingSlashes(url: string, k: nat)
    ensures Normalize(url + Slashes(k)) == Normalize(url)
  {
    var r := Normalize(url);
    var s := url + Slashes(k);
    assert r <= s by { assert s[..|url|] == url; }
    forall i | |r| <= i < |s| ensures s[i] == '/' {
      if i >= |url| { assert s[i] == Slashes(k)[i - |url|]; }
    }
    NormalizeUnique(s, r);
  }

  /** A run of `k` slashes. */
  function Slashes(k: nat): (r: string)
    ensures |r| == k && forall i :: 0 <= i < k ==> r[i] == '/'
  {
    seq(k, i => '/')
  }

  /** The short URL the service returns: the normalised base, a slash, the code. */
  function ShortUrl(baseUrl: string, code: string): (r: string)
    ensures |r| > |code| && r[|r| - |code|..] == code
    ensures var head := r[..|r| - |code|];
      EndsWithSlash(head) && !EndsWithSlash(head[..|head| - 1]) &&
      Normalize(head) == Normalize(baseUrl)
  {
    var base := Normalize(baseUrl);
    var head := base + "/";
    assert head[..|head| - 1] == base;
    assert (head + code)[..|head|] == head;
    head + code
  }

  /**
   * The last `/`-separated segment of `s`: what a client takes from a short
   * URL with `split("/")[-1]` to get the code back.
   */
  function LastSegment(s: string): (r: string)
    ensures |r| <= |s| && r == s[|s| - |r|..]
    ensures '/' !in r
    ensures |r| < |s| ==> s[|s| - |r| - 1] == '/'
  {
    if |s| == 0 then []
    else if s[|s| - 1] == '/' then []
    else
      var init := s[..|s| - 1];
      var r' := LastSegment(init);
      assert init[|init| - |r'|..] + [s[|s| - 1]] == s[|s| - |r'| - 1..];
      r' + [s[|s| - 1]]
  }

  /** The code is recovered from the short URL the service composed. */
  lemma {:induction false} CodeFromShortUrl(baseUrl: string, code: string)
    requires Codes.IsCode(code)
    ensures LastSegment(ShortUrl(baseUrl, code)) == code
  {
    Codes.CodeHasNoSlash(code);
    SegmentAfterSlash(Normalize(baseUrl) + "/", code);
    assert ShortUrl(baseUrl, code) == (Normalize(baseUrl) + "/") + code;
  }

  lemma {:induction false} SegmentAfterSlash(prefix: string, tail: string)
    requires EndsWithSlash(prefix) && '/' !in tail
    ensures LastSegment(prefix + tail) == tail
  {
    if |tail| == 0 {
      assert prefix + tail == prefix;
    } else {
      var t := tail[..|tail| - 1];
      assert (prefix + tail)[..|prefix + tail| - 1] == prefix + t;
      SegmentAfterSlash(prefix, t);
      assert t + [tail[|tail| - 1]] == tail;
    }
  }
}
