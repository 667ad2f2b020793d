/**
 * The crawler (package crawler): the repository that adapts between
 * domain and storage pages, and one crawl step of the controller.
 */
module Crawler {
  import opened Wrappers
  import opened Urls
  import opened Errors
  import opened MemoryStore
  import Domain
  import Storage
  import Times

  // ---------------------------------------------------------------------
  // The repository

  /** adaptStorageFromDomain: the storage page keeps the domain page's URL as its key. */
  function FromDomain(page: Domain.Page): (s: Storage.Page)
    ensures s.URL == page.URL
  {
    Storage.Page(page.URL, page.Referrer, page.CrawledAt)
  }

  /** adaptStorageToDomain: undoes FromDomain. */
  function ToDomain(page: Storage.Page): (d: Domain.Page)
    ensures FromDomain(d) == page
  {
    Domain.Page(page.URL, page.Referrer, page.CrawledAt)
  }

  /** The two adapters are mutual inverses, so no field is lost either way. */
  lemma AdaptersInverse(d: Domain.Page, s: Storage.Page)
    ensures ToDomain(FromDomain(d)) == d
    ensures FromDomain(ToDomain(s)) == s
    ensures FromDomain(d) == s <==> ToDomain(s) == d
  {
  }

  /** The adapters keep the URL, which is the store's key. */
  lemma AdaptersKeepURL(d: Domain.Page, s: Storage.Page)
    ensures FromDomain(d).URL == d.URL && ToDomain(s).URL == s.URL
    ensures ToDomain(s).Referrer == s.Referrer && ToDomain(s).CrawledAt == s.CrawledAt
  {
  }

  /** Repository over the in-memory store. */
  class Repository {
    const storage: Memory

    /** NewRepository */
    constructor (storage: Memory)
      ensures this.storage == storage
    {
      this.storage := storage;
    }

    /** Get: the stored page as a domain page, or the zero page and the store's error. */
    method Get(u: URL) returns (page: Domain.Page, err: Option<Error>)
      ensures err.Some? <==> Lookup(storage.pages, u).Failure?
      ensures err.Some? ==> err.value == Lookup(storage.pages, u).error && page == Domain.Zero
      ensures err.None? ==> FromDomain(page) == Lookup(storage.pages, u).value
    {
      var stored, e := storage.Get(u);
      if e.Some? {
        return Domain.Zero, e;
      }
      return ToDomain(stored), None;
    }

    /** Insert: store the page; on success return it unchanged, else the zero page and the store's error. */
    method Insert(page: Domain.Page) returns (inserted: Domain.Page, err: Option<Error>)
      modifies storage
      ensures (storage.pages, err) == Store(old(storage.pages), FromDomain(page))
      ensures err.None? ==> inserted == page
      ensures err.Some? ==> inserted == Domain.Zero
    {
      var e := storage.Insert(FromDomain(page));
      if e.Some? {
        return Domain.Zero, e;
      }
      return page, None;
    }
  }

  // ---------------------------------------------------------------------
  // One crawl step, as a specification

  /**
   * What crawl does with link `i`: a link already stored is skipped;
   * otherwise another crawl task may store `rivals(i)` first (the window
   * between Get and Insert), and then the new page is inserted and, if
   * the insert succeeds, admitted.
   */
  function AdmitLink(store: map<URL, Storage.Page>, link: URL, i: nat, target: URL,
                     clock: nat -> Times.Time, rivals: nat -> Option<Domain.Page>)
    : (map<URL, Storage.Page>, Option<Domain.Page>)
  {
    if link in store then (store, None)
    else
      var before := if rivals(i).Some? then Store(store, FromDomain(rivals(i).value)).0 else store;
      var page := Domain.Page(link, target, clock(i));
      var (after, err) := Store(before, FromDomain(page));
      (after, if err.None? then Some(page) else None)
  }

  /** crawl's loop over the links: the final store and the pages admitted, in order. */
  function Admit(store: map<URL, Storage.Page>, links: seq<URL>, target: URL,
                 clock: nat -> Times.Time, rivals: nat -> Option<Domain.Page>)
    : (map<URL, Storage.Page>, seq<Domain.Page>)
    decreases |links|
  {
    if links == [] then (store, [])
    else
      var n := |links| - 1;
      var (s, admitted) := Admit(store, links[..n], target, clock, rivals);
      var (s', page) := AdmitLink(s, links[n], n, target, clock, rivals);
      (s', admitted + if page.Some? then [page.value] else [])
  }

  function URLsOf(pages: seq<Domain.Page>): (urls: seq<URL>)
    ensures |urls| == |pages|
    ensures forall i :: 0 <= i < |pages| ==> urls[i] == pages[i].URL
  {
    seq(|pages|, i requires 0 <= i < |pages| => pages[i].URL)
  }

  // ---------------------------------------------------------------------
  // The controller

  /** Controller: the repository and the three channels, as the sequences of what was sent. */
  class Controller {
    const repository: Repository
    var errs: seq<Error>
    var found: seq<URL>
    var pages: seq<Domain.Page>

    /** NewController, with empty channels. */
    constructor (repository: Repository)
      ensures this.repository == repository
      ensures errs == [] && found == [] && pages == []
    {
      this.repository := repository;
      errs, found, pages := [], [], [];
    }

    /**
     * crawl: `fetched` is the outcome of Client.Fetch, `links` that of
     * Parser.FetchLinks, `clock(i)` the time read for link `i`.
     */
    method Crawl(target: URL, fetched: Option<Error>, links: Result<seq<URL>, Error>,
                 clock: nat -> Times.Time, rivals: nat -> Option<Domain.Page>)
      modifies this, repository.storage
      ensures fetched.Some? ==>
        && errs == old(errs) + [At(target, fetched.value)]
        && found == old(found) && pages == old(pages)
        && repository.storage.pages == old(repository.storage.pages)
      ensures fetched.None? && links.Failure? ==>
        && errs == old(errs) + [links.error]
        && found == old(found) && pages == old(pages)
        && repository.storage.pages == old(repository.storage.pages)
      ensures fetched.None? && links.Success? ==>
        var (store, admitted) := Admit(old(repository.storage.pages), links.value, target, clock, rivals);
        && errs == old(errs)
        && repository.storage.pages == store
        && pages == old(pages) + admitted
        && found == old(found) + URLsOf(admitted)
    {
      if fetched.Some? {
        errs := errs + [At(target, fetched.value)];
        return;
      }
      if links.Failure? {
        errs := errs + [links.error];
        return;
      }
      var ls := links.value;
      ghost var admitted: seq<Domain.Page> := [];
      for i := 0 to |ls|
        invariant (repository.storage.pages, admitted) ==
          Admit(old(repository.storage.pages), ls[..i], target, clock, rivals)
        invariant pages == old(pages) + admitted
        invariant found == old(found) + URLsOf(admitted)
        invariant errs == old(errs)
      {
        AdmitSnoc(old(repository.storage.pages), ls, i, target, clock, rivals);
        var page := Visit(ls[i], i, target, clock, rivals);
        admitted := admitted + if page.Some? then [page.value] else [];
      }
      assert ls[..|ls|] == ls;
    }

    /**
     * The body of crawl's loop for link `i`: skip a link already stored,
     * otherwise insert a page for it and, if that succeeds, send the link
     * and the page.
     */
    method Visit(link: URL, i: nat, target: URL, clock: nat -> Times.Time, rivals: nat -> Option<Domain.Page>)
      returns (page: Option<Domain.Page>)
      modifies this, repository.storage
      ensures (repository.storage.pages, page) == AdmitLink(old(repository.storage.pages), link, i, target, clock, rivals)
      ensures pages == old(pages) + (if page.Some? then [page.value] else [])
      ensures found == old(found) + (if page.Some? then [link] else [])
      ensures errs == old(errs)
    {
      var _, err := repository.Get(link);
      if !(err.Some? && Is(err.value, InvalidKey)) {
        return None;
      }
      if rivals(i).Some? {
        var _, _ := repository.Insert(rivals(i).value);
      }
      var p := Domain.Page(link, target, clock(i));
      var _, err' := repository.Insert(p);
      if err'.Some? {
        return None;
      }
      found := found + [link];
      pages := pages + [p];
      return Some(p);
    }
  }

  // ---------------------------------------------------------------------
  // Properties of one crawl step

  /** One link never changes an entry already stored, and leaves the link stored. */
  lemma AdmitLinkExtends(s: map<URL, Storage.Page>, link: URL, i: nat, target: URL,
                         clock: nat -> Times.Time, rivals: nat -> Option<Domain.Page>)
    ensures var (s', page) := AdmitLink(s, link, i, target, clock, rivals);
      && link in s'
      && (forall u :: u in s ==> u in s' && s'[u] == s[u])
      && (page.Some? ==> link !in s && page.value == Domain.Page(link, target, clock(i))
                         && s'[link] == FromDomain(page.value))
  {
  }

  /** How the specification of the loop extends by one link. */
  lemma AdmitSnoc(store: map<URL, Storage.Page>, links: seq<URL>, i: nat, target: URL,
                  clock: nat -> Times.Time, rivals: nat -> Option<Domain.Page>)
    requires i < |links|
    ensures var (s, admitted) := Admit(store, links[..i], target, clock, rivals);
      var (s', page) := AdmitLink(s, links[i], i, target, clock, rivals);
      Admit(store, links[..i + 1], target, clock, rivals) == (s', admitted + if page.Some? then [page.value] else [])
  {
    assert links[..i + 1][..i] == links[..i];
  }

  /** The store only grows: no entry present before the step is changed. */
  lemma {:induction false} AdmitExtends(store: map<URL, Storage.Page>, links: seq<URL>, target: URL,
                                        clock: nat -> Times.Time, rivals: nat -> Option<Domain.Page>)
    ensures forall u :: u in store ==>
      u in Admit(store, links, target, clock, rivals).0 && Admit(store, links, target, clock, rivals).0[u] == store[u]
    decreases |links|
  {
    if links != [] {
      var n := |links| - 1;
      AdmitExtends(store, links[..n], target, clock, rivals);
      AdmitLinkExtends(Admit(store, links[..n], target, clock, rivals).0, links[n], n, target, clock, rivals);
    }
  }

  /** After the step every link is stored, by this task or another. */
  lemma {:induction false} AdmitCovers(store: map<URL, Storage.Page>, links: seq<URL>, target: URL,
                                       clock: nat -> Times.Time, rivals: nat -> Option<Domain.Page>)
    ensures forall k :: 0 <= k < |links| ==> links[k] in Admit(store, links, target, clock, rivals).0
    decreases |links|
  {
    if links != [] {
      var n := |links| - 1;
      AdmitCovers(store, links[..n], target, clock, rivals);
      AdmitLinkExtends(Admit(store, links[..n], target, clock, rivals).0, links[n], n, target, clock, rivals);
      forall k | 0 <= k < n ensures links[k] in Admit(store, links, target, clock, rivals).0 {
        assert links[..n][k] == links[k];
      }
    }
  }

  /**
   * Every admitted page is a link of the page crawled, found on `target`,
   * was not stored before the step, and is stored as it was admitted.
   */
  lemma {:induction false} AdmitProvenance(store: map<URL, Storage.Page>, links: seq<URL>, target: URL,
                                           clock: nat -> Times.Time, rivals: nat -> Option<Domain.Page>)
    ensures var (s, admitted) := Admit(store, links, target, clock, rivals);
      forall j :: 0 <= j < |admitted| ==>
        && admitted[j].Referrer == target
        && admitted[j].URL in links
        && admitted[j].URL !in store
        && admitted[j].URL in s && s[admitted[j].URL] == FromDomain(admitted[j])
    decreases |links|
  {
    if links != [] {
      var n := |links| - 1;
      AdmitProvenance(store, links[..n], target, clock, rivals);
      AdmitExtends(store, links[..n], target, clock, rivals);
      var (s, admitted) := Admit(store, links[..n], target, clock, rivals);
      AdmitLinkExtends(s, links[n], n, target, clock, rivals);
      var (s', page) := AdmitLink(s, links[n], n, target, clock, rivals);
      AdmitSnoc(store, links, n, target, clock, rivals);
      assert links[..n + 1] == links;
      var all := admitted + if page.Some? then [page.value] else [];
      assert Admit(store, links, target, clock, rivals) == (s', all);
      assert forall x :: x in links[..n] ==> x in links;
      forall j | 0 <= j < |all|
        ensures all[j].Referrer == target && all[j].URL in links && all[j].URL !in store
        ensures all[j].URL in s' && s'[all[j].URL] == FromDomain(all[j])
      {
        if j < |admitted| {
          assert all[j] == admitted[j];
        } else {
          assert all[j].URL == links[n];
        }
      }
    }
  }

  /** No page is admitted twice in one step. */
  lemma {:induction false} AdmitDistinct(store: map<URL, Storage.Page>, links: seq<URL>, target: URL,
                                         clock: nat -> Times.Time, rivals: nat -> Option<Domain.Page>)
    ensures var admitted := Admit(store, links, target, clock, rivals).1;
      forall i, j :: 0 <= i < j < |admitted| ==> admitted[i].URL != admitted[j].URL
    decreases |links|
  {
    if links != [] {
      var n := |links| - 1;
      AdmitDistinct(store, links[..n], target, clock, rivals);
      AdmitProvenance(store, links[..n], target, clock, rivals);
      var (s, admitted) := Admit(store, links[..n], target, clock, rivals);
      AdmitLinkExtends(s, links[n], n, target, clock, rivals);
      var (s', page) := AdmitLink(s, links[n], n, target, clock, rivals);
      AdmitSnoc(store, links, n, target, clock, rivals);
      assert links[..n + 1] == links;
      var all := admitted + if page.Some? then [page.value] else [];
      assert Admit(store, links, target, clock, rivals).1 == all;
      if |all| > |admitted| {
        assert all[|admitted|].URL == links[n] && links[n] !in s;
        forall i, j | 0 <= i < j < |all| ensures all[i].URL != all[j].URL {
          assert all[i] == admitted[i];
          if j < |admitted| {
            assert all[j] == admitted[j];
          }
        }
      } else {
        assert all == admitted;
      }
    }
  }

  /** At most one page per link. */
  lemma {:induction false} AdmitSize(store: map<URL, Storage.Page>, links: seq<URL>, target: URL,
                                     clock: nat -> Times.Time, rivals: nat -> Option<Domain.Page>)
    ensures |Admit(store, links, target, clock, rivals).1| <= |links|
    decreases |links|
  {
    if links != [] {
      AdmitSize(store, links[..|links| - 1], target, clock, rivals);
    }
  }

  /**
   * With no other task inserting in between, the store gains exactly the
   * admitted pages, so every link not stored before is admitted.
   */
  lemma {:induction false} AdmitAlone(store: map<URL, Storage.Page>, links: seq<URL>, target: URL,
                                      clock: nat -> Times.Time, rivals: nat -> Option<Domain.Page>)
    requires forall i :: rivals(i) == None
    ensures var (s, admitted) := Admit(store, links, target, clock, rivals);
      forall u :: u in s <==> u in store || u in URLsOf(admitted)
    decreases |links|
  {
    if links != [] {
      var n := |links| - 1;
      AdmitAlone(store, links[..n], target, clock, rivals);
      var (s, admitted) := Admit(store, links[..n], target, clock, rivals);
      var (s', all) := Admit(store, links, target, clock, rivals);
      if links[n] in s {
        assert s' == s && all == admitted;
      } else {
        var page := Domain.Page(links[n], target, clock(n));
        assert s' == s[links[n] := FromDomain(page)];
        assert all == admitted + [page];
        assert URLsOf(all) == URLsOf(admitted) + [links[n]];
      }
    }
  }

  /** Without other tasks, every link not stored before the step is admitted. */
  lemma EveryNewLinkAdmitted(store: map<URL, Storage.Page>, links: seq<URL>, target: URL,
                             clock: nat -> Times.Time, rivals: nat -> Option<Domain.Page>, k: nat)
    requires forall i :: rivals(i) == None
    requires k < |links| && links[k] !in store
    ensures links[k] in URLsOf(Admit(store, links, target, clock, rivals).1)
  {
    AdmitCovers(store, links, target, clock, rivals);
    AdmitAlone(store, links, target, clock, rivals);
  }

  /** The page crawled is never recorded by its own step unless it links to itself. */
  lemma TargetNotRecorded(store: map<URL, Storage.Page>, links: seq<URL>, target: URL,
                          clock: nat -> Times.Time, rivals: nat -> Option<Domain.Page>)
    requires target !in links
    ensures target !in URLsOf(Admit(store, links, target, clock, rivals).1)
  {
    AdmitProvenance(store, links, target, clock, rivals);
  }
}
