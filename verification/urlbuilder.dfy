/**
 * The URL canonicaliser (package urlbuilder): turns the href values found on
 * a page into the set of canonical URLs the crawler may visit.
 */
module UrlBuilder {
  import opened Wrappers
  import opened Strs
  import opened Urls
  import opened Paths
  import opened Errors

  /** The path marker of Cloudflare-protected pages, which are never crawled. */
  const CdnCgi := "cdn-cgi"

  predicate Distinct<T(==)>(s: seq<T>) {
    forall i, j :: 0 <= i < j < |s| ==> s[i] != s[j]
  }

  /** An absolute link to another host (the first filter of Build). */
  predicate OffHost(u: URL, base: URL) {
    Hostname(u) != Hostname(base) && IsAbs(u)
  }

  /** A link into Cloudflare's infrastructure (the second filter of Build). */
  predicate Excluded(u: URL) {
    Contains(u.Path, CdnCgi)
  }

  /**
   * The canonical form cleanUpURL gives a link: its query cleared, resolved
   * against the base, and its path ending in '/'.
   */
  function Cleaned(u: URL, base: URL): (r: URL)
    ensures HasSuffix(r.Path, "/")
    ensures r.Scheme == (if u.Scheme == "" then base.Scheme else u.Scheme)
    ensures r.Host == (if u.Scheme != "" || u.Host != "" then u.Host
                       else if u.Opaque != "" then "" else base.Host)
    ensures u.Path != "" ==> r.RawQuery == "" && r.Fragment == u.Fragment
  {
    var resolved := ResolveReference(base, u.(RawQuery := ""));
    resolved.(Path := EnsureTrailingSlash(resolved.Path))
  }

  /** cleanUpURL: clear the query, resolve against the base, add the trailing '/'. */
  method CleanUpURL(u: URL, base: URL) returns (r: URL)
    ensures r == Cleaned(u, base)
  {
    r := u.(RawQuery := "");
    r := ResolveReference(base, r);
    if !HasSuffix(r.Path, "/") {
      r := r.(Path := r.Path + "/");
    }
  }

  /**
   * What the loop body of Build does with a link that parsed: drop it if it
   * is off-host or excluded, otherwise keep its cleaned form.
   */
  function Filtered(u: URL, base: URL): (r: Option<URL>)
    ensures r.Some? ==> !Excluded(u) && HasSuffix(r.value.Path, "/")
    ensures !IsAbs(u) && !Excluded(u) ==> r.Some?
  {
    if OffHost(u, base) || Excluded(u) then None else Some(Cleaned(u, base))
  }

  /** What the loop body of Build does with one href: its parse error, nothing, or one URL. */
  function Link(href: string, base: URL): (r: Result<Option<URL>, ParseError>)
    ensures r.Failure? <==> Parse(href).Failure?
    ensures r.Failure? ==> r.error == Parse(href).error
    ensures r.Success? && r.value.Some? ==> HasSuffix(r.value.value.Path, "/")
  {
    match Parse(href)
    case Failure(e) => Failure(e)
    case Success(u) => Success(Filtered(u, base))
  }

  /** Link against a fixed base, as a function of the href. */
  function LinkAgainst(base: URL): string -> Result<Option<URL>, ParseError> {
    href => Link(href, base)
  }

  /** url.Parse as a function value. */
  function Parser(): string -> Result<URL, ParseError> {
    raw => Parse(raw)
  }

  /** The error of the first href that `step` rejects, if any. */
  function FirstErrorOf<T>(hrefs: seq<string>, step: string -> Result<T, ParseError>): Option<ParseError>
    decreases |hrefs|
  {
    if hrefs == [] then None
    else if FirstErrorOf(hrefs[..|hrefs| - 1], step).Some? then FirstErrorOf(hrefs[..|hrefs| - 1], step)
    else match step(hrefs[|hrefs| - 1])
      case Failure(e) => Some(e)
      case Success(_) => None
  }

  /** The URLs `step` keeps, over all hrefs. */
  function KeptOf(hrefs: seq<string>, step: string -> Result<Option<URL>, ParseError>): set<URL>
    decreases |hrefs|
  {
    if hrefs == [] then {}
    else KeptOf(hrefs[..|hrefs| - 1], step) + match step(hrefs[|hrefs| - 1])
      case Success(Some(v)) => {v}
      case _ => {}
  }

  /** The parse error of the first href that fails to parse, if any. */
  function FirstParseError(hrefs: seq<string>): Option<ParseError> {
    FirstErrorOf(hrefs, Parser())
  }

  /** The canonical URLs of the hrefs that survive both filters. */
  function Canonicals(hrefs: seq<string>, base: URL): set<URL> {
    KeptOf(hrefs, LinkAgainst(base))
  }

  /** Build's result as a set: the first parse error, or the canonical URLs. */
  function BuildSpec(hrefs: seq<string>, base: URL): Result<set<URL>, Error> {
    match FirstParseError(hrefs)
    case Some(e) => Failure(FailedToParseURL(e))
    case None => Success(Canonicals(hrefs, base))
  }

  // ---------------------------------------------------------------------
  // The methods

  /**
   * mapToArray: the map's values in the order its keys are visited, which
   * is unspecified; `order` records that order.
   */
  method MapToArray(urls: map<URL, URL>) returns (urlArray: seq<URL>, ghost order: seq<URL>)
    ensures |order| == |urls| && |urlArray| == |urls|
    ensures Distinct(order)
    ensures forall k :: k in order <==> k in urls
    ensures forall i :: 0 <= i < |order| ==> order[i] in urls && urlArray[i] == urls[order[i]]
    ensures forall v :: v in urlArray <==> v in urls.Values
  {
    var remaining := urls.Keys;
    urlArray, order := [], [];
    while remaining != {}
      invariant remaining <= urls.Keys
      invariant |urlArray| == |order| && |order| + |remaining| == |urls.Keys|
      invariant Distinct(order)
      invariant forall k :: k in order <==> k in urls && k !in remaining
      invariant forall i :: 0 <= i < |order| ==> order[i] in urls && urlArray[i] == urls[order[i]]
      decreases remaining
    {
      var k :| k in remaining;
      urlArray, order := urlArray + [urls[k]], order + [k];
      remaining := remaining - {k};
    }
    forall v | v in urls.Values ensures v in urlArray {
      var k :| k in urls && urls[k] == v;
      var i :| 0 <= i < |order| && order[i] == k;
    }
  }

  /**
   * The loop of Build, for any per-href step: stop at the first error,
   * otherwise collect each kept URL once, as a key mapped to itself.
   */
  method CollectLinks(hrefs: seq<string>, step: string -> Result<Option<URL>, ParseError>)
    returns (r: Result<map<URL, URL>, ParseError>)
    ensures r.Failure? <==> FirstErrorOf(hrefs, step).Some?
    ensures r.Failure? ==> r.error == FirstErrorOf(hrefs, step).value
    ensures r.Success? ==> r.value.Keys == KeptOf(hrefs, step) && |r.value| <= |hrefs|
    ensures r.Success? ==> forall k :: k in r.value ==> r.value[k] == k
  {
    var urls: map<URL, URL> := map[];
    for i := 0 to |hrefs|
      invariant FirstErrorOf(hrefs[..i], step) == None
      invariant urls.Keys == KeptOf(hrefs[..i], step)
      invariant forall k :: k in urls ==> urls[k] == k
    {
      var link := step(hrefs[i]);
      PrefixStep(hrefs, i, step);
      if link.Failure? {
        FirstErrorPrefix(hrefs, i + 1, step);
        return Failure(link.error);
      }
      if link.value.Some? {
        var u := link.value.value;
        if u !in urls {
          urls := urls[u := u];
        }
      }
    }
    assert hrefs[..|hrefs|] == hrefs;
    KeptOfSize(hrefs, step);
    assert |urls.Keys| == |urls|;
    return Success(urls);
  }

  /**
   * Build: any href that fails to parse fails the whole call; otherwise the
   * output holds each canonical URL once, in unspecified order, and is no
   * longer than the input.
   */
  method Build(hrefs: seq<string>, base: URL) returns (r: Result<seq<URL>, Error>)
    ensures r.Failure? <==> FirstParseError(hrefs).Some?
    ensures r.Failure? ==> r.error == FailedToParseURL(FirstParseError(hrefs).value)
    ensures r.Success? ==>
      && Distinct(r.value)
      && |r.value| <= |hrefs|
      && forall u :: u in r.value <==> u in Canonicals(hrefs, base)
  {
    LinkFailsAsParse(base);
    FirstErrorSame(hrefs, LinkAgainst(base), Parser());
    var collected := CollectLinks(hrefs, LinkAgainst(base));
    if collected.Failure? {
      return Failure(FailedToParseURL(collected.error));
    }
    var urlArray, order := MapToArray(collected.value);
    assert urlArray == order;
    return Success(urlArray);
  }

  // ---------------------------------------------------------------------
  // One href at a time

  /** How the specifications of the loop extend by one href. */
  lemma PrefixStep(hrefs: seq<string>, i: nat, step: string -> Result<Option<URL>, ParseError>)
    requires i < |hrefs|
    ensures FirstErrorOf(hrefs[..i], step) == None ==>
      FirstErrorOf(hrefs[..i + 1], step) == (if step(hrefs[i]).Failure? then Some(step(hrefs[i]).error) else None)
    ensures KeptOf(hrefs[..i + 1], step) ==
      KeptOf(hrefs[..i], step) + (if step(hrefs[i]).Success? && step(hrefs[i]).value.Some? then {step(hrefs[i]).value.value} else {})
  {
    assert hrefs[..i + 1][..i] == hrefs[..i];
  }

  /** Link fails exactly when url.Parse does, with the same error. */
  lemma LinkFailsAsParse(base: URL)
    ensures forall href :: LinkAgainst(base)(href).Failure? <==> Parser()(href).Failure?
    ensures forall href :: LinkAgainst(base)(href).Failure? ==> LinkAgainst(base)(href).error == Parser()(href).error
  {
  }

  /** Two steps that fail on the same hrefs with the same errors have the same first error. */
  lemma {:induction false} FirstErrorSame<T, U>(hrefs: seq<string>, f: string -> Result<T, ParseError>, g: string -> Result<U, ParseError>)
    requires forall h :: f(h).Failure? <==> g(h).Failure?
    requires forall h :: f(h).Failure? ==> f(h).error == g(h).error
    ensures FirstErrorOf(hrefs, f) == FirstErrorOf(hrefs, g)
    decreases |hrefs|
  {
    if hrefs != [] {
      FirstErrorSame(hrefs[..|hrefs| - 1], f, g);
    }
  }

  /** A link that parses but fails a filter is dropped. */
  lemma DroppedLink(href: string, base: URL, u: URL)
    requires Parse(href) == Success(u) && (OffHost(u, base) || Excluded(u))
    ensures Link(href, base) == Success(None)
  {
  }

  /** A link that parses and passes both filters is kept in its cleaned form. */
  lemma KeptLink(href: string, base: URL, u: URL)
    requires Parse(href) == Success(u) && !OffHost(u, base) && !Excluded(u)
    ensures Link(href, base) == Success(Some(Cleaned(u, base)))
  {
  }

  // ---------------------------------------------------------------------
  // Failing to parse

  /** Once some prefix has a parse error, that is the first parse error of the whole input. */
  lemma {:induction false} FirstErrorPrefix<T>(hrefs: seq<string>, n: nat, parse: string -> Result<T, ParseError>)
    requires n <= |hrefs| && FirstErrorOf(hrefs[..n], parse).Some?
    ensures FirstErrorOf(hrefs, parse) == FirstErrorOf(hrefs[..n], parse)
    decreases |hrefs| - n
  {
    if n < |hrefs| {
      assert hrefs[..n + 1][..n] == hrefs[..n];
      FirstErrorPrefix(hrefs, n + 1, parse);
    } else {
      assert hrefs[..n] == hrefs;
    }
  }

  /**
   * One href that fails to parse fails the whole call, whatever the other
   * hrefs are: no URL at all is returned.
   */
  lemma BadHrefFailsBuild(hrefs: seq<string>, i: nat, base: URL)
    requires i < |hrefs| && Parse(hrefs[i]).Failure?
    ensures BuildSpec(hrefs, base).Failure? && BuildSpec(hrefs, base).error.FailedToParseURL?
  {
    assert hrefs[..i + 1][..i] == hrefs[..i];
    assert FirstErrorOf(hrefs[..i + 1], Parser()).Some?;
    FirstErrorPrefix(hrefs, i + 1, Parser());
  }

  // ---------------------------------------------------------------------
  // Where each output URL comes from

  lemma {:induction false} KeptOfProvenance(hrefs: seq<string>, step: string -> Result<Option<URL>, ParseError>, v: URL)
    ensures v in KeptOf(hrefs, step) <==>
      exists k :: 0 <= k < |hrefs| && step(hrefs[k]) == Success(Some(v))
    decreases |hrefs|
  {
    if hrefs != [] {
      var init := hrefs[..|hrefs| - 1];
      KeptOfProvenance(init, step, v);
      if v in KeptOf(hrefs, step) && step(hrefs[|hrefs| - 1]) != Success(Some(v)) {
        var k :| 0 <= k < |init| && step(init[k]) == Success(Some(v));
        assert hrefs[k] == init[k];
      }
      if exists k :: 0 <= k < |hrefs| && step(hrefs[k]) == Success(Some(v)) {
        var k :| 0 <= k < |hrefs| && step(hrefs[k]) == Success(Some(v));
        if k < |init| {
          assert init[k] == hrefs[k];
        }
      }
    }
  }

  lemma {:induction false} KeptOfSize(hrefs: seq<string>, step: string -> Result<Option<URL>, ParseError>)
    ensures |KeptOf(hrefs, step)| <= |hrefs|
    decreases |hrefs|
  {
    if hrefs != [] {
      var init := hrefs[..|hrefs| - 1];
      KeptOfSize(init, step);
      var c: set<URL> := match step(hrefs[|hrefs| - 1]) case Success(Some(v)) => {v} case _ => {};
      assert |KeptOf(init, step) + c| <= |KeptOf(init, step)| + |c|;
    }
  }

  /**
   * A URL is in the output exactly when some href parses to a link that
   * passes both filters and cleans up to that URL.
   */
  lemma CanonicalsProvenance(hrefs: seq<string>, base: URL, v: URL)
    ensures v in Canonicals(hrefs, base) <==>
      exists k :: 0 <= k < |hrefs| && LinkSource(hrefs[k], base, v)
  {
    KeptOfProvenance(hrefs, LinkAgainst(base), v);
    forall k | 0 <= k < |hrefs|
      ensures LinkAgainst(base)(hrefs[k]) == Success(Some(v)) <==> LinkSource(hrefs[k], base, v)
    {
    }
  }

  /** The output has at most one URL per href. */
  lemma CanonicalsSize(hrefs: seq<string>, base: URL)
    ensures |Canonicals(hrefs, base)| <= |hrefs|
  {
    KeptOfSize(hrefs, LinkAgainst(base));
  }

  /** Every output URL is in canonical form: its path ends in '/'. */
  lemma CanonicalPathsEndInSlash(hrefs: seq<string>, base: URL, v: URL)
    requires v in Canonicals(hrefs, base)
    ensures HasSuffix(v.Path, "/")
  {
    CanonicalsProvenance(hrefs, base, v);
  }

  /** A cleaned path is non-empty and already free of dot segments. */
  lemma CleanedPathNormal(u: URL, base: URL)
    ensures Cleaned(u, base).Path != ""
    ensures Normalize(Cleaned(u, base).Path) == Cleaned(u, base).Path
  {
    if u.Scheme != "" || u.Host != "" {
      NormalizeAfterSlash(Merge(u.Path, ""));
    } else if u.Opaque != "" {
      assert Cleaned(u, base).Path == "/";
      NormalizeRooted([]);
      assert "/" + Join([]) == "/";
    } else {
      NormalizeAfterSlash(Merge(base.Path, u.Path));
    }
  }

  /**
   * Every output URL's path is rooted and has no "." or ".." segment, so
   * two links to the same page through different dot segments give one URL.
   */
  lemma CanonicalPathsDotFree(hrefs: seq<string>, base: URL, v: URL)
    requires v in Canonicals(hrefs, base)
    ensures v.Path != "" && v.Path[0] == '/' && DotFree(Split(v.Path[1..]))
  {
    CanonicalsProvenance(hrefs, base, v);
    var k :| 0 <= k < |hrefs| && LinkSource(hrefs[k], base, v);
    CleanedPathNormal(Parse(hrefs[k]).value, base);
    assert Normalize(v.Path) == v.Path;
  }

  // ---------------------------------------------------------------------
  // The two filters

  /**
   * A link is dropped exactly when it is an absolute link to another host
   * or its own path contains "cdn-cgi"; a link without a scheme is never
   * dropped by the host test.
   */
  lemma LinkFilters(u: URL, base: URL)
    ensures Filtered(u, base) == None <==>
      (IsAbs(u) && Hostname(u) != Hostname(base)) || Contains(u.Path, CdnCgi)
    ensures !IsAbs(u) && !Contains(u.Path, CdnCgi) ==> Filtered(u, base) == Some(Cleaned(u, base))
  {
  }

  /** `href` parses to a link that passes both filters and cleans up to `v`. */
  predicate LinkSource(href: string, base: URL, v: URL) {
    Parse(href).Success? && !Contains(Parse(href).value.Path, CdnCgi) &&
    !OffHost(Parse(href).value, base) && v == Cleaned(Parse(href).value, base)
  }

  /** A link whose own path contains "cdn-cgi" is the source of no output URL. */
  lemma CdnCgiNeverOutput(href: string, base: URL)
    requires Parse(href).Success? && Contains(Parse(href).value.Path, CdnCgi)
    ensures Link(href, base) == Success(None)
    ensures forall v :: !LinkSource(href, base, v)
  {
  }

  // ---------------------------------------------------------------------
  // Protocol-relative links

  /**
   * The host filter only looks at links with a scheme, so a
   * protocol-relative link "//host/path" to another host passes it and is
   * kept, with the other host.
   */
  lemma NetworkPathLeavesSite(host: string, path: string, base: URL)
    requires host != "" && Plain(host, "/@?#") && (path == "" || path[0] == '/') && Plain(path, "?#")
    requires HostOnly(host) != Hostname(base) && !Contains(path, CdnCgi)
    ensures Link("//" + host + path, base).Success? && Link("//" + host + path, base).value.Some?
    ensures Hostname(Link("//" + host + path, base).value.value) == HostOnly(host) != Hostname(base)
  {
    ParseNetworkPath(host, path);
    var u := Empty.(Host := host, Path := path);
    assert !OffHost(u, base);
    assert Cleaned(u, base).Host == host;
  }

  /**
   * The host filter as evidently intended: it looks at the URL the link
   * resolves to, so only links that stay on the base's host are kept.
   */
  function ScopedFiltered(u: URL, base: URL): (r: Option<URL>)
    ensures r.Some? ==> Hostname(r.value) == Hostname(base) && r.value == Cleaned(u, base)
  {
    var c := Cleaned(u, base);
    if Hostname(c) != Hostname(base) || Excluded(u) then None else Some(c)
  }

  function ScopedLinkAgainst(base: URL): string -> Result<Option<URL>, ParseError> {
    href => match Parse(href)
      case Failure(e) => Failure(e)
      case Success(u) => Success(ScopedFiltered(u, base))
  }

  /**
   * The corrected filter drops exactly what the written one does, except
   * protocol-relative links to other hosts.
   */
  lemma ScopedAgrees(u: URL, base: URL)
    requires u.Scheme != "" || (u.Host == "" && u.Opaque == "")
    ensures ScopedFiltered(u, base) == Filtered(u, base)
  {
  }

  /** Build with the corrected host filter: every URL it returns is on the base's host. */
  method ScopedBuild(hrefs: seq<string>, base: URL) returns (r: Result<seq<URL>, Error>)
    ensures r.Failure? <==> FirstParseError(hrefs).Some?
    ensures r.Failure? ==> r.error == FailedToParseURL(FirstParseError(hrefs).value)
    ensures r.Success? ==>
      && Distinct(r.value)
      && |r.value| <= |hrefs|
      && forall v :: v in r.value ==> Hostname(v) == Hostname(base)
  {
    ScopedFailsAsParse(base);
    FirstErrorSame(hrefs, ScopedLinkAgainst(base), Parser());
    var collected := CollectLinks(hrefs, ScopedLinkAgainst(base));
    if collected.Failure? {
      return Failure(FailedToParseURL(collected.error));
    }
    ScopedOnSite(hrefs, base);
    var urlArray, order := MapToArray(collected.value);
    assert urlArray == order;
    return Success(urlArray);
  }

  lemma ScopedFailsAsParse(base: URL)
    ensures forall href :: ScopedLinkAgainst(base)(href).Failure? <==> Parser()(href).Failure?
    ensures forall href :: ScopedLinkAgainst(base)(href).Failure? ==> ScopedLinkAgainst(base)(href).error == Parser()(href).error
  {
  }

  lemma ScopedOnSite(hrefs: seq<string>, base: URL)
    ensures forall v :: v in KeptOf(hrefs, ScopedLinkAgainst(base)) ==> Hostname(v) == Hostname(base)
  {
    forall v | v in KeptOf(hrefs, ScopedLinkAgainst(base)) ensures Hostname(v) == Hostname(base) {
      KeptOfProvenance(hrefs, ScopedLinkAgainst(base), v);
    }
  }

  // ---------------------------------------------------------------------
  // Query, resolution and trailing slash

  /** The link's own query never matters: it is cleared before resolution. */
  lemma QueryIgnored(u: URL, q: string, base: URL)
    ensures Cleaned(u.(RawQuery := q), base) == Cleaned(u, base)
    ensures Filtered(u.(RawQuery := q), base) == Filtered(u, base)
  {
    assert u.(RawQuery := q).(RawQuery := "") == u.(RawQuery := "");
  }

  /**
   * A root-relative path is resolved against the base: it takes the base's
   * scheme and host, loses its dot segments and gains a trailing '/'.
   */
  lemma CleanedRooted(p: string, base: URL)
    requires p != "" && p[0] == '/'
    ensures Cleaned(Empty.(Path := p), base)
         == Empty.(Scheme := base.Scheme, Host := base.Host, Path := EnsureTrailingSlash(Normalize(p)))
  {
  }

  /** An absolute link keeps its own scheme and host; only its path is normalized. */
  lemma CleanedAbsolute(scheme: string, host: string, path: string, query: string, base: URL)
    requires scheme != ""
    ensures Cleaned(Empty.(Scheme := scheme, Host := host, Path := path, RawQuery := query), base)
         == Empty.(Scheme := scheme, Host := host, Path := EnsureTrailingSlash(Normalize(path)))
  {
  }

  /**
   * Cleaning is idempotent for links without a RawPath hint, against a base
   * without a query.
   */
  lemma CleanedIdempotent(u: URL, base: URL)
    requires u.RawPath == "" && base.RawQuery == ""
    ensures Cleaned(Cleaned(u, base), base) == Cleaned(u, base)
  {
    if u.Scheme != "" || u.Host != "" {
      CleanedAbsoluteTwice(u, base);
    } else if u.Opaque != "" {
      CleanedOpaqueTwice(u, base);
    } else {
      CleanedRelativeTwice(u, base);
    }
  }

  lemma CleanedAbsoluteTwice(u: URL, base: URL)
    requires u.Scheme != "" || u.Host != ""
    ensures Cleaned(Cleaned(u, base), base) == Cleaned(u, base)
  {
    var c := u.(Scheme := if u.Scheme == "" then base.Scheme else u.Scheme, RawQuery := "",
                Path := EnsureTrailingSlash(Normalize(u.Path)), RawPath := "");
    assert Cleaned(u, base) == c;
    NormalizeAfterSlash(u.Path);
    assert Cleaned(c, base) == c;
  }

  lemma CleanedOpaqueTwice(u: URL, base: URL)
    requires u.Scheme == "" && u.Host == "" && u.Opaque != "" && u.RawPath == ""
    ensures Cleaned(Cleaned(u, base), base) == Cleaned(u, base)
  {
    var c := u.(Scheme := base.Scheme, RawQuery := "", Host := "", Path := "/");
    assert Cleaned(u, base) == c;
    if base.Scheme != "" {
      assert Normalize("/") == "/" by { NormalizeRooted([]); assert "/" + Join([]) == "/"; }
      assert Cleaned(c, base) == c;
    }
  }

  lemma CleanedRelativeTwice(u: URL, base: URL)
    requires u.Scheme == "" && u.Host == "" && u.Opaque == "" && u.RawPath == "" && base.RawQuery == ""
    ensures Cleaned(Cleaned(u, base), base) == Cleaned(u, base)
  {
    var c := Cleaned(u, base);
    var p := EnsureTrailingSlash(Normalize(Merge(base.Path, u.Path)));
    CleanedRelativeShape(u, base);
    NormalizeAfterSlash(Merge(base.Path, u.Path));
    assert Normalize(p) == p;
    if base.Scheme != "" || base.Host != "" {
      CleanedFixedAbsolute(c, base);
    } else {
      CleanedFixedRooted(c, base);
    }
  }

  /** A URL with a scheme or host, already in cleaned form, is left alone by cleaning. */
  lemma CleanedFixedAbsolute(c: URL, base: URL)
    requires c.Scheme != "" || (c.Host != "" && base.Scheme == "")
    requires Normalize(c.Path) == c.Path && HasSuffix(c.Path, "/")
    requires c.RawQuery == "" && c.RawPath == ""
    ensures Cleaned(c, base) == c
  {
  }

  /** A rooted, hostless URL in cleaned form is left alone by cleaning against a hostless base. */
  lemma CleanedFixedRooted(c: URL, base: URL)
    requires c.Scheme == "" && c.Host == "" && c.Opaque == "" && base.Scheme == "" && base.Host == ""
    requires c.Path != "" && c.Path[0] == '/'
    requires Normalize(c.Path) == c.Path && HasSuffix(c.Path, "/")
    requires c.RawQuery == "" && c.RawPath == ""
    ensures Cleaned(c, base) == c
  {
    assert Merge(base.Path, c.Path) == c.Path;
  }

  lemma CleanedRelativeShape(u: URL, base: URL)
    requires u.Scheme == "" && u.Host == "" && u.Opaque == "" && u.RawPath == "" && base.RawQuery == ""
    ensures var c := Cleaned(u, base);
      && c.Path == EnsureTrailingSlash(Normalize(Merge(base.Path, u.Path)))
      && c.Scheme == base.Scheme && c.Host == base.Host && c.Opaque == ""
      && c.RawQuery == "" && c.RawPath == ""
  {
  }

  /**
   * The base's query does reach the output, for a link with no path and no
   * query (such as "" or "#top"): clearing the link's query before resolving
   * does not clear the base's.
   */
  lemma BaseQueryInherited(fragment: string, base: URL)
    ensures Cleaned(Empty.(Fragment := fragment), base).RawQuery == base.RawQuery
  {
  }

  /** A trailing '/' is appended only when it is missing. */
  lemma TrailingSlashIdempotent(p: string)
    ensures EnsureTrailingSlash(EnsureTrailingSlash(p)) == EnsureTrailingSlash(p)
    ensures HasSuffix(p, "/") ==> EnsureTrailingSlash(p) == p
    ensures !HasSuffix(p, "/") ==> EnsureTrailingSlash(p) == p + "/"
  {
  }
}
