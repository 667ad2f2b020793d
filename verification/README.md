# web-crawler, modelled in Dafny

This project models the core of a single-site web crawler written in Go:

- **URL canonicaliser** (`urlbuilder.dfy`). It turns the `href` values
  found on a page into the set of URLs worth visiting. A link that fails to
  parse fails the whole call. Links with a scheme that point to another host
  are dropped, and so are links whose path contains `cdn-cgi`. The rest are
  cleaned: the query is cleared, the link is resolved against the base and
  the path is given a trailing `/`. Each cleaned URL is kept once.
- **Parsing and resolution** (`urls.dfy`, `paths.dfy`, `strs.dfy`). The
  canonicaliser relies on the part of Go's `net/url` it calls: the `URL`
  record, `Hostname`, `IsAbs`, `Parse` and `ResolveReference`, including
  dot-segment removal as in section 5.2.4 of RFC 3986. This part is
  modelled in reduced form.
- **In-memory store** (`memory.dfy`). It is a map from URL to page. It
  refuses a URL it already holds, and it fails a lookup of a missing URL
  with `InvalidKey`.
- **Repository** (`crawler.dfy`). It adapts between domain pages and
  storage pages.
- **Crawl step** (`crawler.dfy`). For each link found on a page that is not
  stored yet, it inserts a page. If that insert succeeds, it sends the link
  and the page on the controller's channels.
- **Printers** (`jsonprinter.dfy`, `rawprinter.dfy`, `printer.dfy`). The
  JSON printer maps domain pages to presentation records field by field.
  The factory picks the JSON printer for `"json"` and the raw printer for
  anything else.

The store, the repository and the controller are classes. Their Go methods
change fields: the page map and the three channels, each modelled as the
sequence of values sent on it. Each method is proved against a
specification function: `Store`, `Lookup` and `Admit`.

The canonicaliser is also checked against a specification. `BuildSpec`,
`FirstParseError` and `Canonicals` say what `Build` returns. Lemmas then
show where each output URL comes from, that outputs are distinct, how many
there can be, and that cleaning is idempotent.

Build's loop is the method `UrlBuilder.CollectLinks`. Its per-link step is
passed in as a function value, and `UrlBuilder.Build` instantiates it with
`LinkAgainst(base)`: parse, filter, clean.

## Model

| member | source | states |
|---|---|---|
| Urls.HostOnly | internal/pkg/urlbuilder/builder.go:39 | `Hostname` never lengthens the host, and it leaves a host with no `:` and no leading `[` unchanged |
| Urls.HostOnlyDropsPort | internal/pkg/urlbuilder/builder.go:39 | a valid `:port` (digits only, possibly none) is dropped: `h:8080` gives `h` |
| Urls.HostOnlyKeepsInvalidPort | internal/pkg/urlbuilder/builder.go:39 | a suffix after the last `:` that holds a non-digit is not a port and stays in the hostname |
| Urls.HostOnlyBracketed | internal/pkg/urlbuilder/builder.go:39 | an IPv6 literal `[a]` gives `a` without its brackets |
| Urls.HostOnlyBracketedPort | internal/pkg/urlbuilder/builder.go:39 | an IPv6 literal with a port, `[a]:8080`, gives `a` |
| Urls.Hostname | internal/pkg/urlbuilder/builder.go:39 | the hostname compared by the host filter is never longer than the URL's host, and is that host when it has no port and no brackets |
| Urls.IsAbs | internal/pkg/urlbuilder/builder.go:39 | a URL is absolute exactly when it has a scheme (a predicate, no contract) |
| Urls.Parse | internal/pkg/urlbuilder/builder.go:34 | a control character before the first `#` fails the parse with `InvalidControlCharacter`; on success the fragment is exactly the text after the first `#`, and no raw path is recorded |
| Urls.ParseReference | internal/pkg/urlbuilder/builder.go:34 | a parsed reference has no fragment and no raw path or raw fragment, and only a URL with a scheme can be opaque |
| Urls.ParseAfterScheme | internal/pkg/urlbuilder/builder.go:34 | what follows the scheme parses to a URL in which opaque data occurs only together with a scheme |
| Urls.ParseRootedPath | internal/pkg/urlbuilder/builder.go:34 | a root-relative link such as `/signup` parses to a URL holding only that path |
| Urls.ParseAbsolute | internal/pkg/urlbuilder/builder.go:34 | `scheme://host/path?query` with plain parts parses into exactly that scheme, host, path and query |
| Urls.ParseNetworkPath | internal/pkg/urlbuilder/builder.go:34 | a protocol-relative `//host/path` parses to that host and path with no scheme |
| Urls.ResolveReference | internal/pkg/urlbuilder/builder.go:62 | the scheme defaults to the base's; a reference with a scheme or host keeps its own host, a relative one takes the base's host; opacity and `ForceQuery` are kept |
| Paths.Normalize | internal/pkg/urlbuilder/builder.go:62 | dot-segment removal maps the empty path, and only it, to itself; every other path becomes a `/`-rooted one none of whose segments is `.` or `..` |
| Paths.Merge | internal/pkg/urlbuilder/builder.go:62 | the merge keeps the base path for an empty reference and lets a rooted reference replace it; a relative reference is appended to the base up to and including its last `/` (to nothing when the base has no `/`), so the result always ends in the reference |
| Paths.EnsureTrailingSlash | internal/pkg/urlbuilder/builder.go:64-66 | the result ends in `/`, extends the input by at most that one character, and leaves a path already ending in `/` alone |
| Paths.NormalizeIdempotent | internal/pkg/urlbuilder/builder.go:62 | removing dot segments twice gives the same path as once |
| Paths.NormalizeAfterSlash | internal/pkg/urlbuilder/builder.go:62-66 | appending the trailing `/` to a normalized path leaves it normalized |
| UrlBuilder.Cleaned | internal/pkg/urlbuilder/builder.go:59-69 | a cleaned URL's path ends in `/`; its scheme is the link's or else the base's; its host is the link's when the link has a scheme or host, and the base's for a relative link; a link with a path loses its query |
| UrlBuilder.CleanUpURL | internal/pkg/urlbuilder/builder.go:59-69 | the step-by-step cleanUpURL (clear the query, resolve, append `/` if missing) computes `Cleaned` |
| UrlBuilder.MapToArray | internal/pkg/urlbuilder/builder.go:71-79 | the output holds every value of the map exactly once, in the order the keys are visited; that order is some permutation of the keys |
| UrlBuilder.CollectLinks | internal/pkg/urlbuilder/builder.go:29-54 | the loop stops at the first link whose step fails, with that link's error; otherwise its keys are exactly the URLs kept, each mapped to itself, and there are no more of them than links |
| UrlBuilder.Build | internal/pkg/urlbuilder/builder.go:28-57 | Build fails exactly when some href fails to parse, with the first parse error; otherwise it returns each canonical URL exactly once and nothing else, and never more URLs than hrefs |
| UrlBuilder.LinkFailsAsParse | internal/pkg/urlbuilder/builder.go:34-37 | the loop body fails on exactly the hrefs that `url.Parse` rejects, with the same error |
| UrlBuilder.Filtered | internal/pkg/urlbuilder/builder.go:39-48 | the two filters then cleanUpURL: a kept link is outside `cdn-cgi` and its cleaned path ends in `/`; a relative link outside `cdn-cgi` is always kept |
| UrlBuilder.Link | internal/pkg/urlbuilder/builder.go:34-48 | the loop body for one href fails exactly when `url.Parse` does, with its error; a URL it keeps has a path ending in `/` |
| UrlBuilder.DroppedLink | internal/pkg/urlbuilder/builder.go:39-46 | a parsed link that is off-host or contains `cdn-cgi` contributes nothing |
| UrlBuilder.KeptLink | internal/pkg/urlbuilder/builder.go:39-48 | a parsed link that passes both filters contributes its cleaned form |
| UrlBuilder.BadHrefFailsBuild | internal/pkg/urlbuilder/builder.go:34-37 | one unparsable href anywhere in the input fails the whole call with `FailedToParseURL` |
| UrlBuilder.CanonicalsProvenance | internal/pkg/urlbuilder/builder.go:31-54 | a URL is output if and only if some href parses to a link that passes both filters and cleans up to that URL |
| UrlBuilder.CanonicalsSize | internal/pkg/urlbuilder/builder.go:50-53 | deduplication gives at most one output URL per href |
| UrlBuilder.CanonicalPathsEndInSlash | internal/pkg/urlbuilder/builder.go:64-66 | every output URL's path ends in `/` |
| UrlBuilder.LinkFilters | internal/pkg/urlbuilder/builder.go:39-46 | a link is dropped if and only if it is absolute with another hostname or its path contains `cdn-cgi`; a relative link outside `cdn-cgi` is always kept, cleaned |
| UrlBuilder.CdnCgiNeverOutput | internal/pkg/urlbuilder/builder.go:43-46 | an href whose parsed path contains `cdn-cgi` is skipped, and is the source of no output URL |
| UrlBuilder.CleanedPathNormal | internal/pkg/urlbuilder/builder.go:59-69 | a cleaned URL's path is non-empty and already free of dot segments |
| UrlBuilder.CanonicalPathsDotFree | internal/pkg/urlbuilder/builder.go:31-66 | every output URL's path is `/`-rooted and none of its segments is `.` or `..` |
| UrlBuilder.NetworkPathLeavesSite | internal/pkg/urlbuilder/builder.go:39-41 | a protocol-relative link to another host passes the host filter and is kept with the other host |
| UrlBuilder.ScopedFiltered | internal/pkg/urlbuilder/builder.go:39-48 | the corrected filter keeps only links whose cleaned URL has the base's hostname, and keeps them in cleaned form |
| UrlBuilder.ScopedAgrees | internal/pkg/urlbuilder/builder.go:39-46 | for a link with a scheme, or with neither host nor opaque part, the corrected filter decides as the written one does |
| UrlBuilder.ScopedBuild | internal/pkg/urlbuilder/builder.go:28-57 | Build with the corrected filter fails exactly as Build does; on success its output is distinct, no longer than the input, and every URL in it has the base's hostname |
| UrlBuilder.QueryIgnored | internal/pkg/urlbuilder/builder.go:60 | a link's own query changes neither its cleaned form nor whether it is kept |
| UrlBuilder.CleanedRooted | internal/pkg/urlbuilder/builder.go:59-69 | a root-relative link takes the base's scheme and host, has its dot segments removed and gains a trailing `/` |
| UrlBuilder.CleanedAbsolute | internal/pkg/urlbuilder/builder.go:59-69 | an absolute link keeps its scheme and host, loses its query and has only its path normalized |
| UrlBuilder.CleanedIdempotent | internal/pkg/urlbuilder/builder.go:59-69 | cleaning an already cleaned URL changes nothing, when the link has no raw path and the base no query |
| UrlBuilder.BaseQueryInherited | internal/pkg/urlbuilder/builder.go:60-62 | for a link with no path and no query (`""`, `#top`), the base's query survives the cleaning |
| UrlBuilder.TrailingSlashIdempotent | internal/pkg/urlbuilder/builder.go:64-66 | the slash is appended only when missing, so appending twice is appending once |
| MemoryStore.Memory.constructor | storage/memory/memory.go:23-27 | a new store is empty |
| MemoryStore.Memory.Get | storage/memory/memory.go:30-39 | Get succeeds exactly for a stored URL and returns its page; a missing URL gives the zero page and `InvalidKey` |
| MemoryStore.Memory.Insert | storage/memory/memory.go:42-53 | Insert refuses a URL already stored with `DuplicateKey` and changes nothing; otherwise it adds the page under its URL; the store stays keyed by URL |
| MemoryStore.StoreRefusesDuplicates | storage/memory/memory.go:45-48 | Insert fails with `DuplicateKey` if and only if the URL is present, and then leaves the store as it was; a successful Insert adds exactly one entry |
| MemoryStore.StoreNeverOverwrites | storage/memory/memory.go:45-50 | no stored entry is ever replaced, and Get of any other URL is unaffected by an Insert |
| MemoryStore.StoreThenLookup | storage/memory/memory.go:33-38 | after a successful Insert, Get of the page's URL returns that page |
| MemoryStore.StoreTwiceFails | storage/memory/memory.go:45-48 | a second Insert with the same URL always fails and changes nothing |
| MemoryStore.StoreKeepsKeyed | storage/memory/memory.go:50 | Insert keeps every key equal to the URL of its page |
| MemoryStore.LookupCases | storage/memory/memory.go:33-38 | in a keyed store, Get fails with `InvalidKey` exactly for a missing URL and otherwise returns a page carrying that URL |
| MemoryStore.StoreAllFirstWins | storage/memory/memory.go:42-53 | after any sequence of Inserts into a new store, each URL holds the first page inserted with it, and the store is keyed |
| MemoryStore.StoreAllFresh | storage/memory/memory.go:42-53 | a URL that no inserted page carries is not a key |
| Crawler.ToDomain | internal/crawler/repository.go:47-53 | adaptStorageToDomain: `FromDomain` turns its result back into the stored page |
| Crawler.FromDomain | internal/crawler/repository.go:55-61 | adaptStorageFromDomain: the stored page keeps the domain page's URL, the store's key |
| Crawler.AdaptersInverse | internal/crawler/repository.go:47-61 | the two adapters are mutual inverses |
| Crawler.AdaptersKeepURL | internal/crawler/repository.go:47-61 | the adapters keep the URL (the store's key), the referrer and the crawl time |
| Crawler.Repository.constructor | internal/crawler/repository.go:21-25 | the repository wraps the given store |
| Crawler.Repository.Get | internal/crawler/repository.go:28-35 | Get fails exactly when the store's Get does, returning the zero page and the store's error; otherwise it returns the stored page, adapted |
| Crawler.Repository.Insert | internal/crawler/repository.go:38-45 | Insert stores the adapted page as the store's Insert does; on success it returns the page, on failure the zero page and the store's error |
| Crawler.Controller.constructor | internal/crawler/controller.go:29-39 | a new controller has sent nothing on any channel |
| Crawler.Controller.Crawl | internal/crawler/controller.go:82-134 | a fetch error sends only the wrapped error; a link error sends only that error; otherwise the store and the pages and links sent are those of `Admit`, and no error is sent |
| Crawler.Controller.Visit | internal/crawler/controller.go:106-130 | one link: the store and the page admitted are those of `AdmitLink`; the link and the page are sent exactly when it is admitted |
| Crawler.AdmitLinkExtends | internal/crawler/controller.go:106-121 | one link never changes a stored entry and leaves the link stored; an admitted page is new, found on the target at the clock's time, and is what was stored |
| Crawler.AdmitExtends | internal/crawler/controller.go:105-131 | the crawl step never changes a page already stored |
| Crawler.AdmitCovers | internal/crawler/controller.go:105-131 | after the step every link found is stored, by this step or by another task |
| Crawler.AdmitProvenance | internal/crawler/controller.go:111-121 | every page sent has the crawled URL as referrer, is one of the links found, was not stored before, and is stored as sent |
| Crawler.AdmitDistinct | internal/crawler/controller.go:105-131 | no URL is sent twice by one crawl step, even when the page links to it twice |
| Crawler.AdmitSize | internal/crawler/controller.go:105-131 | a step sends at most one page per link |
| Crawler.AdmitAlone | internal/crawler/controller.go:105-131 | with no other task inserting in between, the store after the step holds exactly the old URLs and the URLs sent |
| Crawler.EveryNewLinkAdmitted | internal/crawler/controller.go:106-130 | with no other task inserting in between, every link not stored before is sent |
| Crawler.TargetNotRecorded | internal/crawler/controller.go:111-115 | the crawled page itself is not sent unless it links to itself |
| JsonPrinter.New | internal/pkg/printer/json/json.go:24-28 | the printer holds the given pages |
| JsonPrinter.Printer.Print | internal/pkg/printer/json/json.go:32-40 | there is one presentation page per domain page, the adaptation of the page at the same index |
| JsonPrinter.AdaptURL | internal/pkg/printer/json/json.go:55-67 | adaptPresentationURLFromDomain: reading the presentation URL back gives the URL |
| JsonPrinter.AdaptPage | internal/pkg/printer/json/json.go:35-39 | the page adapter of the Print loop: reading the presentation page back gives the page |
| JsonPrinter.AdaptURLInverse | internal/pkg/printer/json/json.go:55-67 | the URL adapter copies every field: reading the presentation URL back gives the URL, and conversely |
| JsonPrinter.AdaptURLInjective | internal/pkg/printer/json/json.go:55-67 | two URLs are presented alike if and only if they are equal |
| JsonPrinter.AdaptPageInverse | internal/pkg/printer/json/json.go:35-39 | a presented page reads back as the page it came from: URL and referrer are not swapped and the crawl time is kept |
| JsonPrinter.PrintLossless | internal/pkg/printer/json/json.go:32-40 | the output of the mapping loop reads back, page by page, as the printer's content |
| RawPrinter.New | internal/pkg/printer/raw/raw.go:15-19 | the raw printer holds the given pages |
| PrinterBuilder.New | internal/pkg/printer/builder.go:29-33 | the factory keeps the content type as given |
| PrinterBuilder.Printer.Create | internal/pkg/printer/builder.go:36-45 | the JSON printer is chosen if and only if the type is `"json"`, the raw printer for every other type, and either printer holds the given pages |
| PrinterBuilder.CreateCases | internal/pkg/printer/builder.go:22-45 | `"raw"` gives the raw printer, `"json"` the JSON printer, and an unknown type such as `"test"` falls back to raw |

## Left out

- Concurrency. The store's read-write lock, the goroutines that send on the
  channels, `Controller.Start` with its select loop and its ten-second timer,
  and `go c.crawl` for each found URL are not modelled. Store operations are
  atomic, and the sends of one crawl step are recorded in the order the
  loop reaches them.
- Other crawl tasks. The only interference modelled is the window between a
  link's Get and its Insert. `rivals(i)` is a page that another task may
  insert in that window, which makes the failed-Insert branch reachable.
- External calls. `Client.Fetch` and `Parser.FetchLinks` (HTTP and HTML
  parsing) are parameters of `Crawl` that give their outcome. crawl's
  `baseURL` is only passed to `FetchLinks`, so it does not appear.
- `time.Now().UTC()` is the parameter `clock(i)`. `time.Time` is reduced to
  a count of nanoseconds, without location or monotonic reading.
- `htmlquery.SelectAttr`: Build receives the `href` strings directly.
- Error values are constructors of `Errors.Error`. `fmt.Errorf` wrapping is
  `At(target, e)`, and the log calls are left out.
- `url.Parse` is simplified:
  - no percent-decoding, so `RawPath` and `RawFragment` stay empty;
  - no validation of the host or port, and only three of its errors are kept;
  - the `User` and `OmitHost` fields are not part of `Urls.URL`.
- `ResolveReference` omits the branch for an opaque base URL.
- `Paths.Normalize` removes dot segments as section 5.2.4 of RFC 3986
  specifies. net/url's `resolvePath` departs from that in one case: an empty
  segment right after a `..` that leaves nothing behind is dropped there.
  So `/..//a` resolves to `/a` in Go and to `//a` in this model.
- `Urls.URL` drops the `User` field, which Go keeps as a pointer. Go
  compares `url.URL` map keys field by field, so two parses of an href with
  user information are different keys. Build then returns that URL once per
  such href, not once in all. crawl's Get never finds the stored copy of
  such a page either, so the page is admitted again each time it is found.
  The model compares URLs by value and merges these cases.
- `UrlBuilder.MapToArray`: Go's map iteration order is unspecified. The
  model picks keys by choice and records the order as a ghost sequence.
  Returning pointers into the map, and the aliasing that comes with it, is
  not modelled.
- `UrlBuilder.CleanedIdempotent` is proved only for links without a raw
  path and for a base without a query. An empty link against a base with a
  query inherits that query, and that query is kept (see `BaseQueryInherited`).
- The JSON printer's `json.MarshalIndent`, `ErrFailedToMarshal` and
  `Persist` (a file write) are left out. So are the raw printer's `Print`
  (`fmt.Sprint`) and `Persist`. The `TypeProvider` interface becomes a
  datatype with one case per printer.
- `JsonPrinter.AdaptURLInverse` holds only because `Urls.URL` has no
  `User` field. Go's adapter drops `User` (and `OmitHost`), so on URLs with
  user information it loses that field.
- The `StorageProvider` and `RepositoryProvider` interfaces are modelled by
  their one implementation, the in-memory store.

## Findings

| source | as written | input that shows it | evidently intended | confidence | as-written member | corrected member |
|---|---|---|---|---|---|---|
| internal/pkg/urlbuilder/builder.go:39-41 | the host filter skips a link only when it has a scheme (`IsAbs`), so a protocol-relative link to another host is kept and, once resolved, points off the site | href `//other.example/page` on base `https://site.example/` is kept as `https://other.example/page/` | only links that stay on the base's host are crawled | not executed | UrlBuilder.NetworkPathLeavesSite | UrlBuilder.ScopedBuild |
