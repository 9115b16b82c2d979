/** The URL shortener (url_shortener/service/UrlShortener.java): three maps
    between short codes, long URLs and custom keywords. */
module UrlShortening {
  import opened Wrappers

  const BaseUrl: string := "http://base.url/"
  const UrlLength: nat := 8

  /** What generateShortUrl returns: the first `UrlLength` characters of an encoded digest. */
  type Code = s: string | |s| == UrlLength witness "AAAAAAAA"

  /** The shortener only ever throws `IllegalArgumentException`. */
  datatype Exception = IllegalArgumentException(message: string)

  const UrlNullOrEmpty: Exception := IllegalArgumentException("URL cannot be null or empty")
  const InvalidUrlFormat: Exception := IllegalArgumentException("Invalid URL format")
  const KeywordNullOrEmpty: Exception := IllegalArgumentException("Keyword cannot be null or empty")
  const KeywordInUse: Exception := IllegalArgumentException("Keyword is already in use")
  const ShortUrlNotFound: Exception := IllegalArgumentException("Short URL not found")
  /** Not thrown by the source: the corrected keyword variant refuses with it a
      keyword that getLongUrl would cut apart. */
  const KeywordContainsBaseUrl: Exception := IllegalArgumentException("Keyword cannot contain the base URL")

  predicate OccursAt(target: string, s: string, i: nat) {
    i + |target| <= |s| && s[i..i + |target|] == target
  }

  /** `target` occurs somewhere in `s`. */
  predicate Occurs(target: string, s: string) {
    exists i: nat | i <= |s| :: OccursAt(target, s, i)
  }

  /** Java's `s.replace(target, "")`: scans left to right and deletes every
      non-overlapping occurrence of `target`. */
  function RemoveAll(s: string, target: string): (r: string)
    requires |target| > 0
    ensures |r| <= |s|
    decreases |s|
  {
    if |s| == 0 then ""
    else if OccursAt(target, s, 0) then RemoveAll(s[|target|..], target)
    else [s[0]] + RemoveAll(s[1..], target)
  }

  /** A string in which the target does not occur comes back unchanged. */
  lemma {:induction false} RemoveAllWithoutOccurrence(s: string, target: string)
    requires |target| > 0 && !Occurs(target, s)
    ensures RemoveAll(s, target) == s
  {
    if |s| > 0 {
      assert !OccursAt(target, s, 0);
      assert !Occurs(target, s[1..]) by {
        forall i: nat | OccursAt(target, s[1..], i)
          ensures false
        {
          assert s[1..][i..i + |target|] == s[i + 1..i + 1 + |target|];
          assert OccursAt(target, s, i + 1);
        }
      }
      RemoveAllWithoutOccurrence(s[1..], target);
    }
  }

  /** Stripping `BaseUrl` from `BaseUrl + key` gives back `key` when `BaseUrl`
      does not occur in it (every generated code qualifies). */
  lemma StripBaseUrl(key: string)
    requires !Occurs(BaseUrl, key)
    ensures RemoveAll(BaseUrl + key, BaseUrl) == key
  {
    var s := BaseUrl + key;
    assert OccursAt(BaseUrl, s, 0) by {
      assert s[..|BaseUrl|] == BaseUrl;
    }
    assert s[|BaseUrl|..] == key;
    RemoveAllWithoutOccurrence(key, BaseUrl);
  }

  /** A key shorter than `BaseUrl`, every code among them, cannot contain it. */
  lemma ShorterThanBaseUrl(key: string)
    requires |key| < |BaseUrl|
    ensures !Occurs(BaseUrl, key)
  {
    forall i: nat | OccursAt(BaseUrl, key, i)
      ensures false
    {
    }
  }

  /** getLongUrl never looks up a string that starts with `BaseUrl` as it was
      given: stripping always removes that first occurrence. */
  lemma StrippedKeyIsShorter(key: string)
    ensures |RemoveAll(BaseUrl + key, BaseUrl)| <= |key|
    ensures RemoveAll(BaseUrl + key, BaseUrl) != BaseUrl + key
  {
    var s := BaseUrl + key;
    assert s[..|BaseUrl|] == BaseUrl;
    assert OccursAt(BaseUrl, s, 0);
    assert s[|BaseUrl|..] == key;
  }

  /** Every long URL maps to a key that maps back to it, and that key does not
      contain `BaseUrl`. */
  ghost predicate Resolves(byShortUrl: map<string, string>, byLongUrl: map<string, string>) {
    forall u :: u in byLongUrl ==>
      byLongUrl[u] in byShortUrl && byShortUrl[byLongUrl[u]] == u && !Occurs(BaseUrl, byLongUrl[u])
  }

  /** Recording a fresh key for a new long URL keeps every mapping resolvable. */
  lemma RecordFreshKey(byShortUrl: map<string, string>, byLongUrl: map<string, string>, u: string, key: string)
    requires Resolves(byShortUrl, byLongUrl)
    requires key !in byShortUrl && !Occurs(BaseUrl, key)
    ensures Resolves(byShortUrl[key := u], byLongUrl[u := key])
  {
  }

  class UrlShortener {
    /** generateShortUrl: a code derived from the long URL and the attempt
        counter (an SHA-256 digest, Base64-encoded and cut to `UrlLength`). */
    const generate: (string, nat) -> Code
    /** Whether `java.net.URL` accepts the string. */
    const isWellFormed: string -> bool
    /** The attempt counter that generateShortUrl advances. */
    var counter: nat
    var byShortUrl: map<string, string>
    var byLongUrl: map<string, string>
    var byKeyword: map<string, string>

    constructor (generate: (string, nat) -> Code, isWellFormed: string -> bool)
      ensures this.generate == generate && this.isWellFormed == isWellFormed
      ensures counter == 0 && byShortUrl == map[] && byLongUrl == map[] && byKeyword == map[]
    {
      this.generate := generate;
      this.isWellFormed := isWellFormed;
      counter := 0;
      byShortUrl := map[];
      byLongUrl := map[];
      byKeyword := map[];
    }

    /** validateUrl; a null string is `None`. */
    function ValidateUrl(url: Option<string>): (r: Outcome<Exception>)
      ensures r == Pass <==> url.Some? && url.value != "" && isWellFormed(url.value)
      ensures r.Fail? ==> r.error in {UrlNullOrEmpty, InvalidUrlFormat}
    {
      if url.None? || url.value == "" then Fail(UrlNullOrEmpty)
      else if !isWellFormed(url.value) then Fail(InvalidUrlFormat)
      else Pass
    }

    /** Some later attempt of the generator yields a code not yet in use: the
        condition under which the retry loop of shortenUrl ends. */
    ghost predicate FreshCodeAhead(longUrl: string)
      reads this
    {
      exists n: nat :: counter <= n && generate(longUrl, n) !in byShortUrl
    }

    /** Every long URL maps to a code that maps back to it: true of every
        shortener on which only the keyword-free shortenUrl has run. */
    ghost predicate CodesResolve()
      reads this
    {
      Resolves(byShortUrl, byLongUrl)
    }

    /** shortenUrl(longUrl): an already shortened URL gets its existing short
        URL back with nothing changed; otherwise codes are drawn until one is
        unused, and it is recorded in both directions. */
    method ShortenUrl(longUrl: Option<string>) returns (r: Result<string, Exception>)
      requires ValidateUrl(longUrl).Pass? && longUrl.value !in byLongUrl ==> FreshCodeAhead(longUrl.value)
      modifies this`counter, this`byShortUrl, this`byLongUrl
      ensures byKeyword == old(byKeyword)
      ensures ValidateUrl(longUrl).Fail? ==>
        r == Failure(ValidateUrl(longUrl).error) && unchanged(this)
      ensures ValidateUrl(longUrl).Pass? && longUrl.value in old(byLongUrl) ==>
        r == Success(BaseUrl + old(byLongUrl)[longUrl.value]) && unchanged(this)
      ensures ValidateUrl(longUrl).Pass? && longUrl.value !in old(byLongUrl) ==>
        && old(counter) < counter
        && var u, code := longUrl.value, generate(longUrl.value, counter - 1);
        && code !in old(byShortUrl)
        && (forall n :: old(counter) <= n < counter - 1 ==> generate(u, n) in old(byShortUrl))
        && r == Success(BaseUrl + code)
        && byShortUrl == old(byShortUrl)[code := u]
        && byLongUrl == old(byLongUrl)[u := code]
      ensures r.Success? ==> BaseUrl <= r.value
      ensures old(CodesResolve()) ==> CodesResolve()
    {
      var v := ValidateUrl(longUrl);
      if v.Fail? {
        return Failure(v.error);
      }
      var u := longUrl.value;
      if u in byLongUrl {
        return Success(BaseUrl + byLongUrl[u]);
      }
      var code := DrawUnusedCode(u);
      ShorterThanBaseUrl(code);
      if CodesResolve() {
        RecordFreshKey(byShortUrl, byLongUrl, u, code);
      }
      byShortUrl := byShortUrl[code := u];
      byLongUrl := byLongUrl[u := code];
      r := Success(BaseUrl + code);
    }

    /** The `do … while` of shortenUrl: codes are drawn, each draw advancing
        the counter, until one is not yet a short-URL key. */
    method DrawUnusedCode(u: string) returns (code: Code)
      requires FreshCodeAhead(u)
      modifies this`counter
      ensures old(counter) < counter && code == generate(u, counter - 1)
      ensures code !in byShortUrl
      ensures forall n :: old(counter) <= n < counter - 1 ==> generate(u, n) in byShortUrl
    {
      ghost var bound :| counter <= bound && generate(u, bound) !in byShortUrl;
      code := generate(u, counter);
      counter := counter + 1;
      while code in byShortUrl
        invariant old(counter) < counter && code == generate(u, counter - 1)
        invariant code in byShortUrl ==> counter <= bound
        invariant forall n :: old(counter) <= n < counter - 1 ==> generate(u, n) in byShortUrl
        decreases bound + 1 - counter
      {
        code := generate(u, counter);
        counter := counter + 1;
      }
    }

    /** shortenUrl(longUrl, keyword) as written: the short URL is
        `BaseUrl + keyword`, and the short-URL map is keyed by that whole
        string, which getLongUrl never looks up. */
    method ShortenUrlWithKeyword(longUrl: Option<string>, keyword: Option<string>)
      returns (r: Result<string, Exception>)
      modifies this`byShortUrl, this`byLongUrl, this`byKeyword
      ensures ValidateUrl(longUrl).Fail? ==>
        r == Failure(ValidateUrl(longUrl).error) && unchanged(this)
      ensures ValidateUrl(longUrl).Pass? && (keyword.None? || keyword.value == "") ==>
        r == Failure(KeywordNullOrEmpty) && unchanged(this)
      ensures ValidateUrl(longUrl).Pass? && keyword.Some? && keyword.value != ""
              && keyword.value in old(byKeyword) ==>
        r == Failure(KeywordInUse) && unchanged(this)
      ensures (ValidateUrl(longUrl).Pass? && keyword.Some? && keyword.value != ""
               && keyword.value !in old(byKeyword)) ==>
        var u, k := longUrl.value, keyword.value;
        && r == Success(BaseUrl + k)
        && if u in old(byLongUrl) && old(byLongUrl)[u] == k then unchanged(this)
           else
             && byKeyword == old(byKeyword)[k := u]
             && byShortUrl == old(byShortUrl)[BaseUrl + k := u]
             && byLongUrl == old(byLongUrl)[u := k]
    {
      var v := ValidateUrl(longUrl);
      if v.Fail? {
        return Failure(v.error);
      }
      if keyword.None? || keyword.value == "" {
        return Failure(KeywordNullOrEmpty);
      }
      var u, k := longUrl.value, keyword.value;
      if k in byKeyword {
        return Failure(KeywordInUse);
      }
      var shortUrl := BaseUrl + k;
      if u in byLongUrl && byLongUrl[u] == k {
        return Success(shortUrl);
      }
      byKeyword := byKeyword[k := u];
      byShortUrl := byShortUrl[shortUrl := u];
      byLongUrl := byLongUrl[u := k];
      r := Success(shortUrl);
    }

    /** The keyword variant with the short-URL map keyed the way getLongUrl
        looks it up (by the bare keyword). It keeps the source's refusals and
        its early return, and refuses two more keywords: one that is already a
        short-URL key (its short URL would resolve through that key's entry)
        and one in which `BaseUrl` occurs (getLongUrl would strip it). */
    method ShortenUrlWithKeywordCorrected(longUrl: Option<string>, keyword: Option<string>)
      returns (r: Result<string, Exception>)
      modifies this`byShortUrl, this`byLongUrl, this`byKeyword
      ensures ValidateUrl(longUrl).Fail? ==>
        r == Failure(ValidateUrl(longUrl).error) && unchanged(this)
      ensures ValidateUrl(longUrl).Pass? && (keyword.None? || keyword.value == "") ==>
        r == Failure(KeywordNullOrEmpty) && unchanged(this)
      ensures ValidateUrl(longUrl).Pass? && keyword.Some? && keyword.value != ""
              && keyword.value in old(byKeyword) ==>
        r == Failure(KeywordInUse) && unchanged(this)
      ensures (ValidateUrl(longUrl).Pass? && keyword.Some? && keyword.value != ""
               && keyword.value !in old(byKeyword)) ==>
        var u, k := longUrl.value, keyword.value;
        if u in old(byLongUrl) && old(byLongUrl)[u] == k then
          r == Success(BaseUrl + k) && unchanged(this)
        else if k in old(byShortUrl) then
          r == Failure(KeywordInUse) && unchanged(this)
        else if Occurs(BaseUrl, k) then
          r == Failure(KeywordContainsBaseUrl) && unchanged(this)
        else
          && r == Success(BaseUrl + k)
          && byKeyword == old(byKeyword)[k := u]
          && byShortUrl == old(byShortUrl)[k := u]
          && byLongUrl == old(byLongUrl)[u := k]
      ensures r.Success? && byShortUrl != old(byShortUrl) ==> GetLongUrl(r.value) == Success(longUrl.value)
      ensures r.Success? && old(CodesResolve()) ==> GetLongUrl(r.value) == Success(longUrl.value)
      ensures old(CodesResolve()) ==> CodesResolve()
    {
      var v := ValidateUrl(longUrl);
      if v.Fail? {
        return Failure(v.error);
      }
      if keyword.None? || keyword.value == "" {
        return Failure(KeywordNullOrEmpty);
      }
      var u, k := longUrl.value, keyword.value;
      if k in byKeyword {
        return Failure(KeywordInUse);
      }
      if u in byLongUrl && byLongUrl[u] == k {
        if CodesResolve() {
          StripBaseUrl(k);
        }
        return Success(BaseUrl + k);
      }
      if k in byShortUrl {
        return Failure(KeywordInUse);
      }
      if Occurs(BaseUrl, k) {
        return Failure(KeywordContainsBaseUrl);
      }
      byKeyword := byKeyword[k := u];
      byShortUrl := byShortUrl[k := u];
      byLongUrl := byLongUrl[u := k];
      r := Success(BaseUrl + k);
      StripBaseUrl(k);
    }

    /** getLongUrl: strips every occurrence of `BaseUrl` and looks the rest up
        among the short-URL keys. */
    function GetLongUrl(shortUrl: string): (r: Result<string, Exception>)
      reads this
      ensures r.Success? ==> r.value in byShortUrl.Values
      ensures r.Failure? ==> r.error == ShortUrlNotFound
    {
      var key := RemoveAll(shortUrl, BaseUrl);
      if key in byShortUrl then Success(byShortUrl[key]) else Failure(ShortUrlNotFound)
    }

    /** The round trip: the short URL issued for a long URL resolves back to it. */
    lemma IssuedShortUrlResolves(u: string)
      requires CodesResolve() && u in byLongUrl
      ensures GetLongUrl(BaseUrl + byLongUrl[u]) == Success(u)
    {
      StripBaseUrl(byLongUrl[u]);
    }

    /** Distinct long URLs hold distinct short URLs. */
    lemma IssuedShortUrlsDistinct(u1: string, u2: string)
      requires CodesResolve() && u1 in byLongUrl && u2 in byLongUrl && u1 != u2
      ensures BaseUrl + byLongUrl[u1] != BaseUrl + byLongUrl[u2]
    {
      assert byLongUrl[u1] != byLongUrl[u2];
      assert (BaseUrl + byLongUrl[u1])[|BaseUrl|..] == byLongUrl[u1];
      assert (BaseUrl + byLongUrl[u2])[|BaseUrl|..] == byLongUrl[u2];
    }
  }
}
