/**
 * Whether a stored URL may be offered for a page: base-domain extraction, the URL
 * compatibility test, and the hostname relaxation step of the search.
 */
module DomainMatch {
  import opened Text
  import opened Env

  /** Characters whose presence in an entry URL makes it unusable. */
  const IllegalUrlChars: set<char> := {'<', '>', '^', '`', '{', '|', '}'}

  predicate HasIllegalChar(s: string) {
    exists i :: 0 <= i < |s| && s[i] in IllegalUrlChars
  }

  /** Host of QUrl::fromUserInput(hostname). */
  function InputHost(q: UrlParser, hostname: string): string {
    q.fromUserInput(hostname).host
  }

  /** Public suffix of QUrl::fromUserInput(hostname). */
  function InputSuffix(q: UrlParser, hostname: string): string {
    q.topLevelDomain(q.fromUserInput(hostname))
  }

  /**
   * The label in front of a public suffix followed by that suffix: `host` with the suffix's length
   * chopped off, its text after the last dot, and the suffix appended again.
   */
  function LabelBeforeSuffix(host: string, tld: string): (r: string)
    ensures EndsWith(host, tld) ==>
              && EndsWith(host, r)
              && EndsWith(r, tld)
              && '.' !in r[..|r| - |tld|]
              && (r == host || host[|host| - |r| - 1] == '.')
  {
    var rest := Chop(host, |tld|);
    var r := LastLabel(rest) + tld;
    if EndsWith(host, tld) then
      var cut := LastIndexOf(rest, '.') + 1;
      assert rest == host[..|host| - |tld|];
      assert r == host[cut..] by {
        assert host == rest + tld;
        assert LastLabel(rest) == rest[cut..];
      }
      assert r[..|r| - |tld|] == LastLabel(rest);
      r
    else r
  }

  /**
   * The registrable domain of a host: its public suffix with one more label in front,
   * e.g. another.example.co.uk gives example.co.uk. IP addresses are returned unchanged and a
   * host that does not hold its suffix gives the empty string.
   */
  function BaseDomain(q: UrlParser, hostname: string): (r: string)
    ensures q.isIpAddress(hostname) ==> r == hostname
    ensures !q.isIpAddress(hostname) && (InputHost(q, hostname) == [] || !Contains(InputHost(q, hostname), InputSuffix(q, hostname)))
            ==> r == []
    ensures !q.isIpAddress(hostname) && InputHost(q, hostname) != [] && EndsWith(InputHost(q, hostname), InputSuffix(q, hostname))
            ==> var host, tld := InputHost(q, hostname), InputSuffix(q, hostname);
                && EndsWith(host, r)
                && EndsWith(r, tld)
                && '.' !in r[..|r| - |tld|]
                && (r == host || host[|host| - |r| - 1] == '.')
  {
    var host := InputHost(q, hostname);
    var tld := InputSuffix(q, hostname);
    if q.isIpAddress(hostname) then hostname
    else if host == [] then []
    else if !Contains(host, tld) then
      assert !EndsWith(host, tld) by {
        if EndsWith(host, tld) { EndsWithContains(host, tld); }
      }
      []
    else LabelBeforeSuffix(host, tld)
  }

  /** The entry URL as parsed by handleURL: strictly when it holds "://", otherwise as user input,
      forced to https when the scheme must match. */
  function EntryQUrl(q: UrlParser, s: BrowserSettings, entryUrl: string): Url {
    if Contains(entryUrl, "://") then q.parse(entryUrl)
    else
      var u := q.fromUserInput(entryUrl);
      if s.matchUrlScheme then u.(scheme := "https") else u
  }

  /**
   * Reference statement of a network match: the entry names a host, agrees with the site on an
   * explicit port and (when required) on the scheme, holds no illegal character, shares the
   * site's base domain, and the site host ends with the entry host.
   */
  predicate SiteMatch(q: UrlParser, s: BrowserSettings, entryUrl: string, url: string) {
    var e := EntryQUrl(q, s, entryUrl);
    var site := q.parse(url);
    && e.host != []
    && (e.port > 0 ==> e.port == site.port)
    && (s.matchUrlScheme && e.scheme != [] ==> e.scheme == site.scheme)
    && !HasIllegalChar(entryUrl)
    && BaseDomain(q, site.host) == BaseDomain(q, e.host)
    && EndsWith(site.host, e.host)
  }

  /** handleURL: may the entry URL be used on page `url` submitting to `submitUrl`? */
  function HandleUrl(q: UrlParser, s: BrowserSettings, entryUrl: string, url: string, submitUrl: string): (r: bool)
    ensures entryUrl == [] ==> !r
    ensures entryUrl != [] && Contains(url, "file://") ==> (r <==> entryUrl == submitUrl)
    ensures entryUrl != [] && !Contains(url, "file://") ==> (r <==> SiteMatch(q, s, entryUrl, url))
  {
    if entryUrl == [] then false
    else
      var entryQUrl := EntryQUrl(q, s, entryUrl);
      if Contains(url, "file://") then entryUrl == submitUrl
      else if entryQUrl.host == [] then false
      else
        var siteQUrl := q.parse(url);
        if entryQUrl.port > 0 && entryQUrl.port != siteQUrl.port then false
        else if s.matchUrlScheme && entryQUrl.scheme != [] && entryQUrl.scheme != siteQUrl.scheme then false
        else if HasIllegalChar(entryUrl) then false
        else if BaseDomain(q, siteQUrl.host) != BaseDomain(q, entryQUrl.host) then false
        else EndsWith(siteQUrl.host, entryQUrl.host)
  }

  /** An entry for a host matches pages on that host and its subdomains with the same base domain. */
  lemma SubdomainPageMatches(q: UrlParser, s: BrowserSettings, entryUrl: string, url: string, submitUrl: string)
    requires entryUrl != [] && !Contains(url, "file://") && !HasIllegalChar(entryUrl)
    requires EntryQUrl(q, s, entryUrl).host != [] && EntryQUrl(q, s, entryUrl).port <= 0
    requires s.matchUrlScheme ==> EntryQUrl(q, s, entryUrl).scheme == q.parse(url).scheme
    requires BaseDomain(q, q.parse(url).host) == BaseDomain(q, EntryQUrl(q, s, entryUrl).host)
    requires EndsWith(q.parse(url).host, EntryQUrl(q, s, entryUrl).host)
    ensures HandleUrl(q, s, entryUrl, url, submitUrl)
  {
  }

  /** An entry for a subdomain never matches a page on a strictly shorter parent host. */
  lemma ParentPageRejected(q: UrlParser, s: BrowserSettings, entryUrl: string, url: string, submitUrl: string)
    requires !Contains(url, "file://")
    requires EndsWith(EntryQUrl(q, s, entryUrl).host, q.parse(url).host)
    requires EntryQUrl(q, s, entryUrl).host != q.parse(url).host
    ensures !HandleUrl(q, s, entryUrl, url, submitUrl)
  {
    if HandleUrl(q, s, entryUrl, url, submitUrl) {
      EndsWithAntisymmetric(EntryQUrl(q, s, entryUrl).host, q.parse(url).host);
    }
  }

  /** schemeFound: the URL names a scheme. */
  predicate SchemeFound(q: UrlParser, url: string) {
    q.parse(url).scheme != []
  }

  /**
   * removeFirstDomain: strips the first label of a hostname that has more than one dot, so a
   * second-level domain is never reduced to a bare top-level domain. The result says whether
   * anything was removed, and gives the hostname the in-out parameter holds afterwards.
   */
  function RemoveFirstDomain(hostname: string): (r: (bool, string))
    ensures r.0 <==> CountChar(hostname, '.') > 1
    ensures !r.0 ==> r.1 == hostname
    ensures r.0 ==> 0 < |r.1| < |hostname|
    ensures r.0 ==>
              var cut := |hostname| - |r.1| - 1;
              hostname[cut] == '.' && '.' !in hostname[..cut] && hostname[cut + 1..] == r.1
    ensures r.0 ==> CountChar(r.1, '.') == CountChar(hostname, '.') - 1
  {
    var pos := IndexOf(hostname, '.');
    if pos < 0 then (false, hostname)
    else if CountChar(hostname, '.') > 1 then
      var relaxed := hostname[pos + 1..];
      CountSplit(hostname, pos, '.');
      CountSplit(hostname[pos..], 1, '.');
      assert hostname[pos..][1..] == relaxed;
      (relaxed != [], relaxed)
    else (false, hostname)
  }
}
