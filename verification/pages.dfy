/** time.Time, reduced to an instant that can be compared for equality. */
module Times {
  /** Nanoseconds since Go's zero time; the location and monotonic reading are not modelled. */
  datatype Time = Time(sinceZero: nat)

  /** The zero time.Time{}. */
  const Zero := Time(0)
}

/** domain.Page: a page found while crawling, with the page it was found on. */
module Domain {
  import Urls
  import Times

  datatype Page = Page(URL: Urls.URL, Referrer: Urls.URL, CrawledAt: Times.Time)

  /** The zero domain.Page{}. */
  const Zero := Page(Urls.Empty, Urls.Empty, Times.Zero)
}

/** storage.Page: the storage representation of a domain.Page. */
module Storage {
  import Urls
  import Times

  datatype Page = Page(URL: Urls.URL, Referrer: Urls.URL, CrawledAt: Times.Time)

  /** The zero storage.Page{}. */
  const Zero := Page(Urls.Empty, Urls.Empty, Times.Zero)
}

/** api.Page and api.URL: the presentation records the JSON printer emits. */
module Api {
  import Times

  datatype URL = URL(
    Scheme: string,
    Opaque: string,
    Host: string,
    Path: string,
    RawPath: string,
    ForceQuery: bool,
    RawQuery: string,
    Fragment: string,
    RawFragment: string)

  datatype Page = Page(URL: URL, Referrer: URL, CrawledAt: Times.Time)
}
