/**
 * The in-memory store (package storage/memory): a map from URL to page
 * that never overwrites an entry.
 */
module MemoryStore {
  import opened Wrappers
  import opened Urls
  import opened Errors
  import Storage

  /** A store whose every key is the URL of the page stored under it. */
  ghost predicate Keyed(pages: map<URL, Storage.Page>) {
    forall u :: u in pages ==> pages[u].URL == u
  }

  /** What Get reports for `u`: the stored page, or InvalidKey. */
  function Lookup(pages: map<URL, Storage.Page>, u: URL): Result<Storage.Page, Error> {
    if u in pages then Success(pages[u]) else Failure(InvalidKey)
  }

  /** What Insert does: refuse a URL already present, otherwise add the page under its URL. */
  function Store(pages: map<URL, Storage.Page>, page: Storage.Page): (map<URL, Storage.Page>, Option<Error>) {
    if page.URL in pages then (pages, Some(DuplicateKey))
    else (pages[page.URL := page], None)
  }

  /** Memory, without its lock. */
  class Memory {
    var pages: map<URL, Storage.Page>

    /** New: an empty store. */
    constructor ()
      ensures pages == map[]
      ensures Keyed(pages)
    {
      pages := map[];
    }

    /** Get: the page stored under `u`, or the zero page and InvalidKey. */
    method Get(u: URL) returns (page: Storage.Page, err: Option<Error>)
      ensures u in pages <==> err == None
      ensures u in pages ==> page == pages[u]
      ensures u !in pages ==> page == Storage.Zero && err == Some(InvalidKey)
      ensures (if err == None then Success(page) else Failure(err.value)) == Lookup(pages, u)
    {
      if u !in pages {
        return Storage.Zero, Some(InvalidKey);
      }
      return pages[u], None;
    }

    /** Insert: add `page` under its URL unless that URL is already a key. */
    method Insert(page: Storage.Page) returns (err: Option<Error>)
      modifies this
      ensures (pages, err) == Store(old(pages), page)
      ensures old(Keyed(pages)) ==> Keyed(pages)
    {
      if page.URL in pages {
        return Some(DuplicateKey);
      }
      pages := pages[page.URL := page];
      return None;
    }
  }

  // ---------------------------------------------------------------------
  // Properties of Store and Lookup

  /** Insert refuses exactly the URLs already present, and then changes nothing. */
  lemma StoreRefusesDuplicates(pages: map<URL, Storage.Page>, page: Storage.Page)
    ensures Store(pages, page).1 == Some(DuplicateKey) <==> page.URL in pages
    ensures Store(pages, page).1 != None ==> Store(pages, page).0 == pages
    ensures Store(pages, page).1 == None ==> |Store(pages, page).0| == |pages| + 1
  {
  }

  /** An entry is never overwritten, and no key other than the page's URL changes. */
  lemma StoreNeverOverwrites(pages: map<URL, Storage.Page>, page: Storage.Page, u: URL)
    ensures u in pages ==> u in Store(pages, page).0 && Store(pages, page).0[u] == pages[u]
    ensures u != page.URL ==> Lookup(Store(pages, page).0, u) == Lookup(pages, u)
  {
  }

  /** After a successful Insert, Get of the page's URL returns exactly that page. */
  lemma StoreThenLookup(pages: map<URL, Storage.Page>, page: Storage.Page)
    requires Store(pages, page).1 == None
    ensures Lookup(Store(pages, page).0, page.URL) == Success(page)
  {
  }

  /** Once a URL is stored, every later Insert with that URL fails. */
  lemma StoreTwiceFails(pages: map<URL, Storage.Page>, page: Storage.Page, again: Storage.Page)
    requires again.URL == page.URL
    ensures Store(Store(pages, page).0, again) == (Store(pages, page).0, Some(DuplicateKey))
  {
  }

  /** Insert keeps every key equal to its page's URL. */
  lemma StoreKeepsKeyed(pages: map<URL, Storage.Page>, page: Storage.Page)
    requires Keyed(pages)
    ensures Keyed(Store(pages, page).0)
  {
  }

  /** Get of a missing URL fails with InvalidKey; of a present one, returns the stored page. */
  lemma LookupCases(pages: map<URL, Storage.Page>, u: URL)
    requires Keyed(pages)
    ensures Lookup(pages, u).Failure? <==> u !in pages
    ensures Lookup(pages, u).Failure? ==> Lookup(pages, u).error == InvalidKey
    ensures Lookup(pages, u).Success? ==> Lookup(pages, u).value.URL == u
  {
  }

  /** The store after inserting `inserted` one by one, starting from `pages`. */
  function StoreAll(pages: map<URL, Storage.Page>, inserted: seq<Storage.Page>): map<URL, Storage.Page>
    decreases |inserted|
  {
    if inserted == [] then pages
    else Store(StoreAll(pages, inserted[..|inserted| - 1]), inserted[|inserted| - 1]).0
  }

  /**
   * A store built only by New and Insert is keyed by URL, and holds, for
   * each URL, the first page inserted with it.
   */
  lemma {:induction false} StoreAllFirstWins(inserted: seq<Storage.Page>, k: nat)
    requires k < |inserted|
    requires forall j :: 0 <= j < k ==> inserted[j].URL != inserted[k].URL
    ensures Keyed(StoreAll(map[], inserted))
    ensures inserted[k].URL in StoreAll(map[], inserted)
    ensures StoreAll(map[], inserted)[inserted[k].URL] == inserted[k]
    decreases |inserted|
  {
    var n := |inserted| - 1;
    StoreAllKeyed(inserted);
    if k < n {
      StoreAllFirstWins(inserted[..n], k);
      StoreNeverOverwrites(StoreAll(map[], inserted[..n]), inserted[n], inserted[k].URL);
    } else {
      StoreAllFresh(inserted[..n], inserted[k].URL);
    }
  }

  lemma {:induction false} StoreAllKeyed(inserted: seq<Storage.Page>)
    ensures Keyed(StoreAll(map[], inserted))
    decreases |inserted|
  {
    if inserted != [] {
      StoreAllKeyed(inserted[..|inserted| - 1]);
      StoreKeepsKeyed(StoreAll(map[], inserted[..|inserted| - 1]), inserted[|inserted| - 1]);
    }
  }

  /** A URL no inserted page carries is not a key. */
  lemma {:induction false} StoreAllFresh(inserted: seq<Storage.Page>, u: URL)
    requires forall j :: 0 <= j < |inserted| ==> inserted[j].URL != u
    ensures u !in StoreAll(map[], inserted)
    decreases |inserted|
  {
    if inserted != [] {
      StoreAllFresh(inserted[..|inserted| - 1], u);
    }
  }
}
