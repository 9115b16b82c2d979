/** Runs of the URL shortener, for any code generator and any URL validator
    that accepts the URLs used: the runs the repository's tests describe, and
    further runs that show how keywords and generated codes interact. */
module UrlShortenerScenarios {
  import opened Wrappers
  import opened UrlShortening

  /** A fresh shortener: the long URL is well formed and the first drawn code
      is necessarily unused. */
  method FreshShortener(generate: (string, nat) -> Code, isWellFormed: string -> bool, u: string)
    returns (sh: UrlShortener)
    ensures fresh(sh) && sh.generate == generate && sh.isWellFormed == isWellFormed
    ensures sh.counter == 0 && sh.byShortUrl == map[] && sh.byLongUrl == map[] && sh.byKeyword == map[]
    ensures sh.CodesResolve() && sh.FreshCodeAhead(u)
  {
    sh := new UrlShortener(generate, isWellFormed);
    assert generate(u, 0) !in sh.byShortUrl;
  }

  /** A fresh shortener after one `shortenUrl(u)`: the first drawn code was
      issued for `u`. */
  method ShortenedOnce(generate: (string, nat) -> Code, isWellFormed: string -> bool, u: string)
    returns (sh: UrlShortener, first: Result<string, Exception>)
    requires u != "" && isWellFormed(u)
    ensures fresh(sh) && sh.generate == generate && sh.isWellFormed == isWellFormed
    ensures sh.counter == 1 && sh.byKeyword == map[]
    ensures sh.byShortUrl == map[generate(u, 0) := u] && sh.byLongUrl == map[u := generate(u, 0)]
    ensures first == Success(BaseUrl + generate(u, 0))
  {
    sh := FreshShortener(generate, isWellFormed, u);
    ghost var noCodes := sh.byShortUrl;
    first := sh.ShortenUrl(Some(u));
    assert generate(u, 0) !in noCodes;
  }

  /** Shortening then resolving gives the long URL back. */
  method ShortenThenResolve(generate: (string, nat) -> Code, isWellFormed: string -> bool)
    returns (short: string, resolved: Result<string, Exception>)
    requires isWellFormed("http://example.com")
    ensures BaseUrl <= short
    ensures resolved == Success("http://example.com")
  {
    var u := "http://example.com";
    var sh := FreshShortener(generate, isWellFormed, u);
    var r := sh.ShortenUrl(Some(u));
    short := r.value;
    sh.IssuedShortUrlResolves(u);
    resolved := sh.GetLongUrl(short);
  }

  /** Shortening the same URL again returns the same short URL. */
  method ShortenTwice(generate: (string, nat) -> Code, isWellFormed: string -> bool)
    returns (first: Result<string, Exception>, second: Result<string, Exception>)
    requires isWellFormed("http://example.com")
    ensures first.Success? && first == second
  {
    var u := "http://example.com";
    var sh := FreshShortener(generate, isWellFormed, u);
    first := sh.ShortenUrl(Some(u));
    second := sh.ShortenUrl(Some(u));
  }

  /** Two different long URLs get two different short URLs; a draw for the
      second URL that collides with the first code is simply drawn again. */
  method ShortenTwoUrls(generate: (string, nat) -> Code, isWellFormed: string -> bool)
    returns (first: Result<string, Exception>, second: Result<string, Exception>)
    requires isWellFormed("http://example1.com") && isWellFormed("http://example2.com")
    requires exists n: nat :: 1 <= n && generate("http://example2.com", n) != generate("http://example1.com", 0)
    ensures first.Success? && second.Success? && first.value != second.value
  {
    var u1, u2 := "http://example1.com", "http://example2.com";
    var sh;
    sh, first := ShortenedOnce(generate, isWellFormed, u1);
    var code1 := generate(u1, 0);
    assert sh.FreshCodeAhead(u2) by {
      var n: nat :| 1 <= n && generate(u2, n) != code1;
      assert generate(u2, n) !in sh.byShortUrl;
    }
    second := sh.ShortenUrl(Some(u2));
    var code2 := generate(u2, sh.counter - 1);
    assert code2 != code1 && second == Success(BaseUrl + code2);
    assert (BaseUrl + code2)[|BaseUrl|..] == code2 && (BaseUrl + code1)[|BaseUrl|..] == code1;
  }

  /** A null URL, a null keyword, an empty keyword and a used keyword are each refused. */
  method RefusedInputs(generate: (string, nat) -> Code, isWellFormed: string -> bool)
    returns (nullUrl: Result<string, Exception>, nullKeyword: Result<string, Exception>,
             emptyKeyword: Result<string, Exception>, usedKeyword: Result<string, Exception>)
    requires isWellFormed("http://example.com") && isWellFormed("http://another-url.com")
    ensures nullUrl == Failure(UrlNullOrEmpty)
    ensures nullKeyword == Failure(KeywordNullOrEmpty) && emptyKeyword == Failure(KeywordNullOrEmpty)
    ensures usedKeyword == Failure(KeywordInUse)
  {
    var sh := FreshShortener(generate, isWellFormed, "http://example.com");
    nullUrl := sh.ShortenUrl(None);
    nullKeyword := sh.ShortenUrlWithKeyword(Some("http://example.com"), None);
    emptyKeyword := sh.ShortenUrlWithKeyword(Some("http://example.com"), Some(""));
    var r := sh.ShortenUrlWithKeyword(Some("http://example.com"), Some("test"));
    usedKeyword := sh.ShortenUrlWithKeyword(Some("http://another-url.com"), Some("test"));
  }

  /** The keyword's short URL is returned as `BaseUrl + keyword`, but getLongUrl
      cannot resolve it: it looks up "test" while the map holds "http://base.url/test". */
  method KeywordShortUrlUnresolved(generate: (string, nat) -> Code, isWellFormed: string -> bool)
    returns (short: Result<string, Exception>, resolved: Result<string, Exception>)
    requires isWellFormed("http://example.com")
    ensures short == Success("http://base.url/test")
    ensures resolved == Failure(ShortUrlNotFound)
  {
    var sh := FreshShortener(generate, isWellFormed, "http://example.com");
    short := sh.ShortenUrlWithKeyword(Some("http://example.com"), Some("test"));
    ShorterThanBaseUrl("test");
    StripBaseUrl("test");
    assert BaseUrl + "test" == "http://base.url/test";
    assert sh.byShortUrl.Keys == {"http://base.url/test"};
    resolved := sh.GetLongUrl(short.value);
  }

  /** The corrected keyword variant: the same short URL now resolves. */
  method KeywordShortUrlResolvedWhenCorrected(generate: (string, nat) -> Code, isWellFormed: string -> bool)
    returns (short: Result<string, Exception>, resolved: Result<string, Exception>)
    requires isWellFormed("http://example.com")
    ensures short == Success("http://base.url/test")
    ensures resolved == Success("http://example.com")
  {
    var sh := FreshShortener(generate, isWellFormed, "http://example.com");
    ShorterThanBaseUrl("test");
    short := sh.ShortenUrlWithKeywordCorrected(Some("http://example.com"), Some("test"));
    assert BaseUrl + "test" == "http://base.url/test";
    resolved := sh.GetLongUrl(short.value);
  }

  /** A keyword equal to the code issued for another URL is accepted, and its
      short URL resolves, through that code's entry, to the other URL. */
  method KeywordEqualToOtherUrlsCode(generate: (string, nat) -> Code, isWellFormed: string -> bool)
    returns (short: Result<string, Exception>, resolved: Result<string, Exception>)
    requires isWellFormed("http://example1.com") && isWellFormed("http://example2.com")
    ensures short == Success(BaseUrl + generate("http://example1.com", 0))
    ensures resolved == Success("http://example1.com")
  {
    var u1, u2 := "http://example1.com", "http://example2.com";
    var sh, first := ShortenedOnce(generate, isWellFormed, u1);
    var code := generate(u1, 0);
    short := sh.ShortenUrlWithKeyword(Some(u2), Some(code));
    ShorterThanBaseUrl(code);
    StripBaseUrl(code);
    assert BaseUrl + code != code;
    assert sh.byShortUrl == map[code := u1, BaseUrl + code := u2];
    resolved := sh.GetLongUrl(short.value);
  }

  /** The corrected keyword variant refuses a keyword that is already a code. */
  method KeywordEqualToOtherUrlsCodeRefusedWhenCorrected(generate: (string, nat) -> Code, isWellFormed: string -> bool)
    returns (short: Result<string, Exception>)
    requires isWellFormed("http://example1.com") && isWellFormed("http://example2.com")
    ensures short == Failure(KeywordInUse)
  {
    var u1, u2 := "http://example1.com", "http://example2.com";
    var sh, first := ShortenedOnce(generate, isWellFormed, u1);
    var code := generate(u1, 0);
    short := sh.ShortenUrlWithKeywordCorrected(Some(u2), Some(code));
  }

  /** The early return of the keyword variant is reachable: when the keyword
      equals the code already issued for the URL, the call succeeds and records
      nothing, so the keyword stays unregistered. */
  method KeywordEqualToIssuedCode(isWellFormed: string -> bool)
    returns (byCode: Result<string, Exception>, byKeyword: Result<string, Exception>, keywords: map<string, string>)
    requires isWellFormed("http://example.com")
    ensures byCode == Success("http://base.url/AbCdEfGh") && byKeyword == byCode
    ensures keywords == map[]
  {
    var generate: (string, nat) -> Code := (u: string, n: nat) => "AbCdEfGh";
    var sh := FreshShortener(generate, isWellFormed, "http://example.com");
    byCode := sh.ShortenUrl(Some("http://example.com"));
    assert BaseUrl + "AbCdEfGh" == "http://base.url/AbCdEfGh";
    byKeyword := sh.ShortenUrlWithKeyword(Some("http://example.com"), Some("AbCdEfGh"));
    keywords := sh.byKeyword;
  }

  /** The corrected keyword variant keeps that early return: a keyword equal
      to the code issued for the URL gives the code's short URL, which resolves
      to the URL. */
  method KeywordEqualToIssuedCodeWhenCorrected(generate: (string, nat) -> Code, isWellFormed: string -> bool)
    returns (short: Result<string, Exception>, resolved: Result<string, Exception>)
    requires isWellFormed("http://example.com")
    ensures short == Success(BaseUrl + generate("http://example.com", 0))
    ensures resolved == Success("http://example.com")
  {
    var u := "http://example.com";
    var sh, first := ShortenedOnce(generate, isWellFormed, u);
    var code := generate(u, 0);
    ShorterThanBaseUrl(code);
    assert sh.CodesResolve();
    short := sh.ShortenUrlWithKeywordCorrected(Some(u), Some(code));
    resolved := sh.GetLongUrl(short.value);
  }

  /** The corrected keyword variant refuses a keyword that contains the base
      URL, whose short URL getLongUrl would cut apart. */
  method KeywordContainingBaseUrlRefusedWhenCorrected(generate: (string, nat) -> Code, isWellFormed: string -> bool)
    returns (short: Result<string, Exception>)
    requires isWellFormed("http://example.com")
    ensures short == Failure(KeywordContainsBaseUrl)
  {
    var sh := FreshShortener(generate, isWellFormed, "http://example.com");
    var k := "http://base.url/x";
    assert OccursAt(BaseUrl, k, 0) by {
      assert k[..|BaseUrl|] == BaseUrl;
    }
    short := sh.ShortenUrlWithKeywordCorrected(Some("http://example.com"), Some(k));
  }
}
