/**
 * The JSON printer (package printer/json): adapts domain pages to the
 * presentation records of package api before they are marshalled.
 */
module JsonPrinter {
  import Urls
  import Domain
  import Api

  /** Printer: the pages to print. */
  datatype Printer = Printer(content: seq<Domain.Page>)
  {
    /**
     * The mapping loop of Print: one presentation page per domain page,
     * at the same index. The marshalling that follows is not modelled.
     */
    method Print() returns (presentation: seq<Api.Page>)
      ensures |presentation| == |content|
      ensures forall i :: 0 <= i < |content| ==> presentation[i] == AdaptPage(content[i])
    {
      var a := new Api.Page[|content|];
      for i := 0 to |content|
        invariant forall j :: 0 <= j < i ==> a[j] == AdaptPage(content[j])
      {
        a[i] := Api.Page(AdaptURL(content[i].URL), AdaptURL(content[i].Referrer), content[i].CrawledAt);
      }
      presentation := a[..];
    }
  }

  /** New: a printer over `content`. */
  function New(content: seq<Domain.Page>): (p: Printer)
    ensures p.content == content
  {
    Printer(content)
  }

  /** adaptPresentationURLFromDomain: copy every field of the URL. */
  function AdaptURL(u: Urls.URL): (a: Api.URL)
    ensures FromApiURL(a) == u
  {
    Api.URL(u.Scheme, u.Opaque, u.Host, u.Path, u.RawPath, u.ForceQuery, u.RawQuery, u.Fragment, u.RawFragment)
  }

  /** The presentation page built for one domain page in Print's loop. */
  function AdaptPage(p: Domain.Page): (a: Api.Page)
    ensures FromApiPage(a) == p
  {
    Api.Page(AdaptURL(p.URL), AdaptURL(p.Referrer), p.CrawledAt)
  }

  /** Reading a presentation URL back: the reference the adapter is checked against. */
  function FromApiURL(a: Api.URL): Urls.URL {
    Urls.URL(a.Scheme, a.Opaque, a.Host, a.Path, a.RawPath, a.ForceQuery, a.RawQuery, a.Fragment, a.RawFragment)
  }

  /** Reading a presentation page back. */
  function FromApiPage(a: Api.Page): Domain.Page {
    Domain.Page(FromApiURL(a.URL), FromApiURL(a.Referrer), a.CrawledAt)
  }

  // ---------------------------------------------------------------------
  // Properties

  /** The URL adapter loses no field: it and FromApiURL are mutual inverses. */
  lemma AdaptURLInverse(u: Urls.URL, a: Api.URL)
    ensures FromApiURL(AdaptURL(u)) == u
    ensures AdaptURL(FromApiURL(a)) == a
  {
  }

  /** Distinct URLs are presented differently. */
  lemma AdaptURLInjective(u: Urls.URL, v: Urls.URL)
    ensures AdaptURL(u) == AdaptURL(v) <==> u == v
  {
    AdaptURLInverse(u, AdaptURL(u));
    AdaptURLInverse(v, AdaptURL(v));
  }

  /**
   * A presented page reads back as the page it came from: the URL is not
   * swapped with the referrer and the crawl time is kept.
   */
  lemma AdaptPageInverse(p: Domain.Page, a: Api.Page)
    ensures FromApiPage(AdaptPage(p)) == p
    ensures AdaptPage(FromApiPage(a)) == a
    ensures FromApiURL(AdaptPage(p).URL) == p.URL && FromApiURL(AdaptPage(p).Referrer) == p.Referrer
  {
    AdaptURLInverse(p.URL, a.URL);
    AdaptURLInverse(p.Referrer, a.Referrer);
  }

  /** What Print produces reads back, page by page, as the printer's content. */
  lemma PrintLossless(content: seq<Domain.Page>, presentation: seq<Api.Page>)
    requires |presentation| == |content|
    requires forall i :: 0 <= i < |content| ==> presentation[i] == AdaptPage(content[i])
    ensures seq(|presentation|, i requires 0 <= i < |presentation| => FromApiPage(presentation[i])) == content
  {
    forall i | 0 <= i < |content| ensures FromApiPage(presentation[i]) == content[i] {
      AdaptPageInverse(content[i], presentation[i]);
    }
  }
}
