/** The error values the core creates or passes through. */
module Errors {
  import Urls

  datatype Error =
    | InvalidKey                                // memory.ErrInvalidKey: "key does not exist"
    | DuplicateKey                              // memory.ErrDuplicateKey: "key already exists"
    | FailedToParseURL(parseError: Urls.ParseError)  // urlbuilder.ErrFailedToParseURL, wrapping url.Parse's error
    | FailedToParseHTML                         // htmlparser.ErrFailedToParseHTML
    | FetchFailed(reason: string)               // whatever the HTTP client reports
    | At(target: Urls.URL, wrapped: Error)      // fmt.Errorf("%v: %w", targetURL, err)

  /** errors.Is: `err` is `target` or wraps it through `%w`. */
  predicate Is(err: Error, target: Error) {
    err == target || (err.At? && Is(err.wrapped, target))
  }
}
