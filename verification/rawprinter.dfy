/** The raw printer (package printer/raw): holds the pages it prints. */
module RawPrinter {
  import Domain

  /** Printer: the pages to print. */
  datatype Printer = Printer(content: seq<Domain.Page>)

  /** New: a printer over `content`. */
  function New(content: seq<Domain.Page>): (p: Printer)
    ensures p.content == content
  {
    Printer(content)
  }
}
