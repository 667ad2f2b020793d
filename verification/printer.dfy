/** The printer factory (package printer): chooses a printer by content type. */
module PrinterBuilder {
  import Domain
  import JsonPrinter
  import RawPrinter

  /** ContentType: the name of an output format. */
  type ContentType = string

  const Raw: ContentType := "raw"
  const JSON: ContentType := "json"

  /** TypeProvider: one of the two printers. */
  datatype TypeProvider =
    | JsonProvider(json: JsonPrinter.Printer)
    | RawProvider(raw: RawPrinter.Printer)
  {
    /** The pages the chosen printer prints. */
    function Content(): seq<Domain.Page> {
      match this
      case JsonProvider(p) => p.content
      case RawProvider(p) => p.content
    }
  }

  /** Printer: the content type selected. */
  datatype Printer = Printer(typeSelected: ContentType)
  {
    /** Create: the JSON printer for "json", the raw printer for "raw" and for anything else. */
    function Create(pages: seq<Domain.Page>): (provider: TypeProvider)
      ensures provider.JsonProvider? <==> typeSelected == JSON
      ensures provider.RawProvider? <==> typeSelected != JSON
      ensures provider.Content() == pages
    {
      if typeSelected == JSON then JsonProvider(JsonPrinter.New(pages))
      else if typeSelected == Raw then RawProvider(RawPrinter.New(pages))
      else RawProvider(RawPrinter.New(pages))
    }
  }

  /** New: a factory for the given content type, kept as given. */
  function New(typeSelected: ContentType): (p: Printer)
    ensures p.typeSelected == typeSelected
  {
    Printer(typeSelected)
  }

  /** "raw" gives the raw printer, "json" the JSON printer, and an unknown name falls back to raw. */
  lemma CreateCases(pages: seq<Domain.Page>)
    ensures New(Raw).Create(pages) == RawProvider(RawPrinter.Printer(pages))
    ensures New(JSON).Create(pages) == JsonProvider(JsonPrinter.Printer(pages))
    ensures New("test").Create(pages) == RawProvider(RawPrinter.Printer(pages))
  {
  }
}
