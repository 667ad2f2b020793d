/**
 * The part of Go's net/url that the canonicaliser uses: the URL record,
 * Hostname, IsAbs, Parse and ResolveReference.
 */
module Urls {
  import opened Wrappers
  import opened Strs
  import Paths

  /**
   * A parsed URL, field for field as net/url.URL keeps it, without the User
   * and OmitHost fields. Values of this type are compared structurally.
   * Go compares url.URL map keys field by field too, but its User field is
   * a pointer, so two parses of a link with user information are different
   * keys in Go and one value here.
   */
  datatype URL = URL(
    Scheme: string,
    Opaque: string,
    Host: string,
    Path: string,
    RawPath: string,
    ForceQuery: bool,
    RawQuery: string,
    Fragment: string,
    RawFragment: string)

  /** Go's zero url.URL{}. */
  const Empty := URL("", "", "", "", "", false, "", "", "")

  /** URL.IsAbs: the URL has a scheme. */
  predicate IsAbs(u: URL) {
    u.Scheme != ""
  }

  /** validOptionalPort: empty, or ':' followed by digits only. */
  predicate ValidOptionalPort(port: string) {
    port == "" || (port[0] == ':' && forall i :: 1 <= i < |port| ==> IsAsciiDigit(port[i]))
  }

  /** The host string ends in a ":port" that Hostname strips. */
  predicate HasPort(host: string) {
    var colon := LastIndexOf(host, ':');
    colon >= 0 && ValidOptionalPort(host[colon..])
  }

  /** splitHostPort's host half: drop a valid ":port", then IPv6 brackets. */
  function HostOnly(host: string): (h: string)
    ensures |h| <= |host|
    ensures ':' !in host && (host == [] || host[0] != '[') ==> h == host
  {
    var colon := LastIndexOf(host, ':');
    var h := if colon >= 0 && ValidOptionalPort(host[colon..]) then host[..colon] else host;
    if HasPrefix(h, "[") && HasSuffix(h, "]") && |h| >= 2 then h[1..|h| - 1] else h
  }

  /** URL.Hostname: the host without its port or IPv6 brackets. */
  function Hostname(u: URL): (h: string)
    ensures |h| <= |u.Host|
    ensures ':' !in u.Host && (u.Host == [] || u.Host[0] != '[') ==> h == u.Host
  {
    HostOnly(u.Host)
  }

  /** A host followed by a valid port: Hostname drops ":port", however many digits it has. */
  lemma HostOnlyDropsPort(h: string, d: string)
    requires ':' !in h && (h == [] || h[0] != '[')
    requires forall k :: 0 <= k < |d| ==> IsAsciiDigit(d[k])
    ensures HostOnly(h + ":" + d) == h
  {
    var host := h + ":" + d;
    assert host[|h| + 1..] == d;
    LastIndexAt(host, ':', |h|);
    assert host[|h|..] == ":" + d;
    assert host[..|h|] == h;
  }

  /** A host whose text after the last ':' is not all digits keeps that text. */
  lemma HostOnlyKeepsInvalidPort(h: string, p: string, k: nat)
    requires ':' !in h && (h == [] || h[0] != '[')
    requires ':' !in p && k < |p| && !IsAsciiDigit(p[k])
    ensures HostOnly(h + ":" + p) == h + ":" + p
  {
    var host := h + ":" + p;
    assert host[|h| + 1..] == p;
    LastIndexAt(host, ':', |h|);
    var port := host[|h|..];
    assert port[k + 1] == p[k];
    HostOnlyNoPort(host);
  }

  /** A host with no valid port and no leading '[' is its own hostname. */
  lemma HostOnlyNoPort(host: string)
    requires host == [] || host[0] != '['
    requires LastIndexOf(host, ':') >= 0 ==> !ValidOptionalPort(host[LastIndexOf(host, ':')..])
    ensures HostOnly(host) == host
  {
  }

  /** An IPv6 literal loses its brackets. */
  lemma HostOnlyBracketed(a: string)
    ensures HostOnly("[" + a + "]") == a
  {
    var bare := "[" + a + "]";
    var colon := LastIndexOf(bare, ':');
    if colon >= 0 {
      var port := bare[colon..];
      assert port[|port| - 1] == ']';
    }
    assert HasPrefix(bare, "[") && HasSuffix(bare, "]");
    assert bare[1..|bare| - 1] == a;
  }

  /** An IPv6 literal with a port loses both. */
  lemma HostOnlyBracketedPort(a: string, d: string)
    requires forall k :: 0 <= k < |d| ==> IsAsciiDigit(d[k])
    ensures HostOnly("[" + a + "]:" + d) == a
  {
    var bare := "[" + a + "]";
    var host := bare + ":" + d;
    assert host == "[" + a + "]:" + d;
    assert host[|bare| + 1..] == d;
    LastIndexAt(host, ':', |bare|);
    assert host[|bare|..] == ":" + d;
    assert host[..|bare|] == bare;
    assert HasPrefix(bare, "[") && HasSuffix(bare, "]");
    assert bare[1..|bare| - 1] == a;
  }

  // ---------------------------------------------------------------------
  // Parsing

  /** The reasons url.Parse fails that this model keeps. */
  datatype ParseError =
    | InvalidControlCharacter   // "net/url: invalid control character in URL"
    | MissingProtocolScheme     // a leading ':'
    | ColonInFirstSegment       // "first path segment in URL cannot contain colon"

  /** An ASCII control character: below space, or DEL. */
  predicate IsCTL(c: char) {
    c < ' ' || c == '\U{7F}'
  }

  predicate ContainsCTL(s: string) {
    exists i :: 0 <= i < |s| && IsCTL(s[i])
  }

  predicate IsSchemeChar(c: char) {
    IsAsciiLetter(c) || IsAsciiDigit(c) || c == '+' || c == '-' || c == '.'
  }

  /**
   * getScheme, scanning from position i: a scheme is a letter followed by
   * letters, digits, '+', '-' or '.', ended by ':'. A ':' in first position
   * is an error; any other character means there is no scheme.
   */
  function SchemeFrom(raw: string, i: nat): (r: Result<(string, string), ParseError>)
    requires i <= |raw|
    requires forall k :: 0 <= k < i ==> IsSchemeChar(raw[k])
    requires i > 0 ==> IsAsciiLetter(raw[0])
    ensures r.Success? && r.value.0 != "" ==>
      raw == r.value.0 + ":" + r.value.1 && IsAsciiLetter(r.value.0[0])
    ensures r.Success? && r.value.0 == "" ==> r.value.1 == raw
    ensures r.Failure? <==> i == 0 && raw != [] && raw[0] == ':'
    decreases |raw| - i
  {
    if i == |raw| then Success(("", raw))
    else
      var c := raw[i];
      if IsAsciiLetter(c) then SchemeFrom(raw, i + 1)
      else if IsAsciiDigit(c) || c == '+' || c == '-' || c == '.' then
        if i == 0 then Success(("", raw)) else SchemeFrom(raw, i + 1)
      else if c == ':' then
        if i == 0 then Failure(MissingProtocolScheme)
        else
          assert raw == raw[..i] + ":" + raw[i + 1..];
          Success((raw[..i], raw[i + 1..]))
      else Success(("", raw))
  }

  /** The authority's host: what follows the last '@' (userinfo is dropped). */
  function HostOfAuthority(authority: string): string {
    var at := LastIndexOf(authority, '@');
    authority[at + 1..]
  }

  /** The text before the first '/', the first path segment. */
  function FirstSegment(s: string): string {
    Cut(s, '/').0
  }

  /**
   * The query split of net/url's parse: a lone trailing '?' sets
   * ForceQuery and leaves no query; otherwise the text after the first '?'
   * is the raw query. Yields (rest, ForceQuery, RawQuery).
   */
  function SplitQuery(rest0: string): (string, bool, string) {
    if HasSuffix(rest0, "?") && Count(rest0, '?') == 1 then (rest0[..|rest0| - 1], true, "")
    else var (before, after, _) := Cut(rest0, '?'); (before, false, after)
  }

  /**
   * net/url's parse after the scheme is split off: a rootless rest after a
   * scheme is opaque, a relative path whose first segment holds ':' is an
   * error, and "//" starts an authority that runs to the next '/'.
   */
  function ParseAfterScheme(scheme: string, rest0: string): (r: Result<URL, ParseError>)
    ensures r.Success? ==> r.value.RawPath == "" && r.value.RawFragment == "" && r.value.Fragment == ""
    ensures r.Success? && r.value.Opaque != "" ==> r.value.Scheme != ""
  {
    var (rest, forceQuery, query) := SplitQuery(rest0);
    if !HasPrefix(rest, "/") && scheme != "" then
      Success(Empty.(Scheme := scheme, Opaque := rest, ForceQuery := forceQuery, RawQuery := query))
    else if !HasPrefix(rest, "/") && ':' in FirstSegment(rest) then
      Failure(ColonInFirstSegment)
    else if (scheme != "" || !HasPrefix(rest, "///")) && HasPrefix(rest, "//") then
      var (authority, _, hasPath) := Cut(rest[2..], '/');
      var path := if hasPath then rest[2 + |authority|..] else "";
      Success(Empty.(Scheme := scheme, Host := HostOfAuthority(authority), Path := path,
                     ForceQuery := forceQuery, RawQuery := query))
    else
      Success(Empty.(Scheme := scheme, Path := rest, ForceQuery := forceQuery, RawQuery := query))
  }

  /**
   * net/url's parse(rawURL, viaRequest = false), without percent-decoding
   * and without validating the host: control characters are refused, "*"
   * is a path of its own, and the scheme is lower-cased.
   */
  function ParseReference(raw: string): (r: Result<URL, ParseError>)
    ensures r.Success? ==> r.value.RawPath == "" && r.value.RawFragment == "" && r.value.Fragment == ""
    ensures r.Success? && r.value.Opaque != "" ==> r.value.Scheme != ""
  {
    if ContainsCTL(raw) then Failure(InvalidControlCharacter)
    else if raw == "*" then Success(Empty.(Path := "*"))
    else
      match SchemeFrom(raw, 0)
      case Failure(e) => Failure(e)
      case Success((s, rest0)) => ParseAfterScheme(ToLower(s), rest0)
  }

  /**
   * url.Parse: everything after the first '#' is the fragment; the rest is
   * parsed by ParseReference, so a control character before the '#' fails
   * the whole parse.
   */
  function Parse(raw: string): (r: Result<URL, ParseError>)
    ensures ContainsCTL(Cut(raw, '#').0) ==> r == Failure(InvalidControlCharacter)
    ensures r.Success? ==> r.value.Fragment == Cut(raw, '#').1
    ensures r.Success? ==> r.value.RawPath == ""
  {
    var (u, frag, _) := Cut(raw, '#');
    match ParseReference(u)
    case Failure(e) => Failure(e)
    case Success(url) => Success(url.(Fragment := frag))
  }

  // ---------------------------------------------------------------------
  // Reference resolution

  /**
   * URL.ResolveReference (section 5.2.2 of RFC 3986 as net/url applies
   * it, with dot segments removed as section 5.2.4 of RFC 3986 specifies):
   * a reference with a scheme or a host keeps its own authority and
   * only has dot segments removed; an opaque reference loses host and path;
   * otherwise host and path come from the base, and a reference with no
   * path and no query also takes the base's query (and, with no fragment,
   * the base's fragment). The scheme defaults to the base's.
   */
  function ResolveReference(base: URL, ref: URL): (r: URL)
    ensures r.Scheme == (if ref.Scheme == "" then base.Scheme else ref.Scheme)
    ensures ref.Scheme == "" && ref.Host == "" && ref.Opaque == "" ==> r.Host == base.Host
    ensures ref.Scheme != "" || ref.Host != "" ==> r.Host == ref.Host
    ensures r.Opaque == ref.Opaque && r.ForceQuery == ref.ForceQuery
  {
    var url := ref.(Scheme := if ref.Scheme == "" then base.Scheme else ref.Scheme);
    if ref.Scheme != "" || ref.Host != "" then
      url.(Path := Paths.ResolvePath(ref.Path, ""), RawPath := "")
    else if ref.Opaque != "" then
      url.(Host := "", Path := "")
    else
      var inherit := ref.Path == "" && !ref.ForceQuery && ref.RawQuery == "";
      var url' :=
        if !inherit then url
        else if ref.Fragment == "" then
          url.(RawQuery := base.RawQuery, Fragment := base.Fragment, RawFragment := base.RawFragment)
        else url.(RawQuery := base.RawQuery);
      url'.(Host := base.Host, Path := Paths.ResolvePath(base.Path, ref.Path), RawPath := "")
  }

  // ---------------------------------------------------------------------
  // What Parse yields for the two shapes of link a page usually holds

  /** Characters a plain host, path or query may hold without changing how it parses. */
  predicate Plain(s: string, excluded: string) {
    forall i :: 0 <= i < |s| ==> !IsCTL(s[i]) && s[i] !in excluded
  }

  lemma PlainAppend(a: string, b: string, excluded: string)
    requires Plain(a, excluded) && Plain(b, excluded)
    ensures Plain(a + b, excluded)
  {
    forall i | 0 <= i < |a + b| ensures !IsCTL((a + b)[i]) && (a + b)[i] !in excluded {
      if i >= |a| { assert (a + b)[i] == b[i - |a|]; }
    }
  }

  lemma PlainNarrow(s: string, excluded: string, fewer: string)
    requires Plain(s, excluded) && forall c :: c in fewer ==> c in excluded
    ensures Plain(s, fewer)
  {
  }

  lemma CutFound(a: string, b: string, c: char)
    requires c !in a
    ensures Cut(a + [c] + b, c) == (a, b, true)
  {
    var s := a + [c] + b;
    var i := IndexOf(s, c);
    assert s[|a|] == c;
    assert s[..|a|] == a && s[|a| + 1..] == b;
  }

  lemma {:induction false} SchemeFromLetters(raw: string, n: nat, i: nat)
    requires 0 < n < |raw| && raw[n] == ':'
    requires forall k :: 0 <= k < n ==> IsAsciiLetter(raw[k])
    requires i <= n
    ensures SchemeFrom(raw, i) == Success((raw[..n], raw[n + 1..]))
    decreases n - i
  {
    if i < n {
      SchemeFromLetters(raw, n, i + 1);
    }
  }

  /**
   * A root-relative link such as "/signup" parses to a URL holding only
   * that path.
   */
  lemma ParseRootedPath(p: string)
    requires |p| >= 1 && p[0] == '/' && (|p| == 1 || p[1] != '/')
    requires Plain(p, "?#")
    ensures Parse(p) == Success(Empty.(Path := p))
  {
    assert !ContainsCTL(p);
    assert '#' !in p && '?' !in p;
    assert Cut(p, '#') == (p, "", false);
    assert SchemeFrom(p, 0) == Success(("", p));
    assert !HasSuffix(p, "?");
    assert Cut(p, '?') == (p, "", false);
    assert !HasPrefix(p, "//");
  }

  /** The authority part: "//host/path" with a plain host splits at the first '/'. */
  lemma AuthoritySplit(host: string, path: string)
    requires Plain(host, "/@") && (path == "" || path[0] == '/')
    ensures var rest := "//" + host + path;
      var (authority, _, hasPath) := Cut(rest[2..], '/');
      authority == host && HostOfAuthority(authority) == host &&
      (if hasPath then rest[2 + |authority|..] else "") == path
  {
    var rest := "//" + host + path;
    assert rest[2..] == host + path;
    assert '/' !in host && '@' !in host;
    if path == "" {
      assert host + path == host;
    } else {
      CutFound(host, path[1..], '/');
      assert host + [path[0]] + path[1..] == host + path;
      assert rest[2 + |host|..] == path;
    }
  }

  /** The query part: "rest?query" splits at its only '?', and no ForceQuery arises. */
  lemma QuerySplit(rest: string, query: string)
    requires '?' !in rest && Plain(query, "?")
    ensures SplitQuery(rest + (if query == "" then "" else "?" + query)) == (rest, false, query)
  {
    if query != "" {
      var rest0 := rest + ("?" + query);
      assert rest0[|rest0| - 1] == query[|query| - 1];
      assert rest0[|rest0| - 1..] != "?" by { assert rest0[|rest0| - 1..][0] == rest0[|rest0| - 1]; }
      assert !HasSuffix(rest0, "?");
      CutFound(rest, query, '?');
      assert rest + ['?'] + query == rest0;
    } else {
      assert rest + "" == rest;
    }
  }

  lemma AfterSchemeAbsolute(scheme: string, host: string, path: string, query: string)
    requires scheme != ""
    requires Plain(host, "/@?#") && (path == "" || path[0] == '/')
    requires Plain(path, "?#") && Plain(query, "?#")
    ensures ParseAfterScheme(scheme, "//" + host + path + (if query == "" then "" else "?" + query))
         == Success(Empty.(Scheme := scheme, Host := host, Path := path, RawQuery := query))
  {
    var rest := "//" + host + path;
    assert '?' !in rest;
    PlainNarrow(query, "?#", "?");
    QuerySplit(rest, query);
    assert HasPrefix(rest, "//") && HasPrefix(rest, "/");
    PlainNarrow(host, "/@?#", "/@");
    AuthoritySplit(host, path);
  }

  lemma AfterSchemeNetwork(host: string, path: string)
    requires host != "" && Plain(host, "/@?#") && (path == "" || path[0] == '/')
    requires '?' !in path
    ensures ParseAfterScheme("", "//" + host + path) == Success(Empty.(Host := host, Path := path))
  {
    var raw := "//" + host + path;
    assert '?' !in raw;
    QuerySplit(raw, "");
    assert raw + "" == raw;
    assert HasPrefix(raw, "//") && !HasPrefix(raw, "///") by { assert raw[2] == host[0] != '/'; }
    PlainNarrow(host, "/@?#", "/@");
    AuthoritySplit(host, path);
  }

  /**
   * A protocol-relative link "//host/path" with a plain host parses to a
   * URL with that host and path and no scheme.
   */
  lemma ParseNetworkPath(host: string, path: string)
    requires host != "" && Plain(host, "/@?#") && (path == "" || path[0] == '/')
    requires Plain(path, "?#")
    ensures Parse("//" + host + path) == Success(Empty.(Host := host, Path := path))
  {
    var raw := "//" + host + path;
    assert Plain("//", "#");
    PlainNarrow(host, "/@?#", "#");
    PlainNarrow(path, "?#", "#");
    PlainAppend("//", host, "#");
    PlainAppend("//" + host, path, "#");
    assert !ContainsCTL(raw) && '#' !in raw;
    assert Cut(raw, '#') == (raw, "", false);
    assert raw != "*" by { assert |raw| >= 3; }
    assert SchemeFrom(raw, 0) == Success(("", raw));
    assert ToLower("") == "";
    AfterSchemeNetwork(host, path);
  }

  /**
   * An absolute link "scheme://host/path?query" with a lower-case scheme
   * and plain parts parses into exactly those parts.
   */
  lemma ParseAbsolute(scheme: string, host: string, path: string, query: string)
    requires |scheme| >= 1 && forall k :: 0 <= k < |scheme| ==> 'a' <= scheme[k] <= 'z'
    requires Plain(host, "/@?#") && host != ""
    requires path == "" || path[0] == '/'
    requires Plain(path, "?#") && Plain(query, "?#")
    ensures
      var raw := scheme + "://" + host + path + (if query == "" then "" else "?" + query);
      Parse(raw) == Success(Empty.(Scheme := scheme, Host := host, Path := path, RawQuery := query))
  {
    var q := if query == "" then "" else "?" + query;
    var rest := "//" + host + path;
    var raw := scheme + "://" + host + path + q;
    assert raw == scheme + ":" + (rest + q);
    assert Plain(scheme, "#");
    assert Plain("://", "#") && Plain("?", "#") && Plain("//", "#?");
    PlainNarrow(host, "/@?#", "#?");
    PlainNarrow(path, "?#", "#?");
    PlainNarrow(query, "?#", "#");
    PlainAppend("//", host, "#?");
    PlainAppend("//" + host, path, "#?");
    assert Plain(rest, "#?");
    PlainAppend(scheme, "://", "#");
    PlainAppend(scheme + "://", host, "#");
    PlainAppend(scheme + "://" + host, path, "#");
    if query != "" {
      PlainAppend("?", query, "#");
    }
    PlainAppend(scheme + "://" + host + path, q, "#");
    assert !ContainsCTL(raw) && '#' !in raw;
    assert Cut(raw, '#') == (raw, "", false);
    assert raw != "*" by { assert |raw| >= 4; }
    SchemeFromLetters(raw, |scheme|, 0);
    assert raw[..|scheme|] == scheme && raw[|scheme| + 1..] == rest + q;
    assert ToLower(scheme) == scheme;
    AfterSchemeAbsolute(scheme, host, path, query);
    assert ParseReference(raw) == Success(Empty.(Scheme := scheme, Host := host, Path := path, RawQuery := query));
  }
}
