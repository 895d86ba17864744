/**
 * `run_scraper` for one results page, and the entry point's loops: the
 * pages of a store, fetched until one yields fewer than 96 observations,
 * for each of the four stores in turn.
 */
module Crawler {
  import opened Wrappers
  import opened Tables
  import opened Reconciler
  import opened Page
  import Classifier
  import Text

  /** The page size the search url asks for (`rpp=96`) and the pagination threshold. */
  const PageSize: nat := 96

  /** A store to scrape; `siteId` is the store's id on the retailer's site. */
  datatype StoreInfo = StoreInfo(name: string, city: string, state: string, siteId: string)

  const StoresToCheck: seq<StoreInfo> := [
    StoreInfo("Overland Park", "Overland Park", "KS", "191"),
    StoreInfo("Tustin", "Tustin", "CA", "101"),
    StoreInfo("Denver", "Denver", "CO", "181"),
    StoreInfo("Dallas", "Dallas", "TX", "131")
  ]

  /**
   * What one run meets outside the model: no database connection; a page
   * on which no product link appears in time; or a loaded page with its
   * product containers in document order, and the server faults, by
   * position, on each container's first gpus write.
   */
  datatype Visit = DbDown | TimedOut | Loaded(containers: seq<Container>, faults: seq<Option<int>>)

  function Sum(xs: seq<nat>): nat {
    if xs == [] then 0 else Sum(xs[..|xs| - 1]) + xs[|xs| - 1]
  }

  /**
   * `run_scraper`, lines 178-298: without a connection nothing happens and
   * the count is 0; otherwise the store is got or created, and then a
   * timed-out page yields 0 and a loaded page is processed.
   */
  function RunOnce(db: Db, w: GpuWidths, classify: Classifier.Classification, store: StoreInfo, visit: Visit): (r: (Db, nat))
    ensures visit.DbDown? ==> r.0 == db && r.1 == 0
    ensures !visit.DbDown? ==> FindStore(r.0.stores, store.name, store.city).Some?
    ensures !visit.Loaded? ==> r.1 == 0
    ensures visit.Loaded? ==> r.1 <= |visit.containers|
    ensures |r.0.history| == |db.history| + r.1 && db.history <= r.0.history
  {
    match visit
    case DbDown => (db, 0)
    case TimedOut =>
      var s := UpsertStore(db.stores, db.nextStoreId, store.name, store.city, store.state);
      (db.(stores := s.rows, nextStoreId := s.nextId), 0)
    case Loaded(cs, faults) =>
      var s := UpsertStore(db.stores, db.nextStoreId, store.name, store.city, store.state);
      ProcessAll(db.(stores := s.rows, nextStoreId := s.nextId), w, classify, s.id, cs, faults, |cs|)
  }

  /** The visit for page `k + 1`; pages past the given ones time out. */
  function VisitAt(pages: seq<Visit>, k: nat): Visit {
    if k < |pages| then pages[k] else TimedOut
  }

  /**
   * Lines 314-326 from page `k + 1` on: run, and go on to the next page
   * while the run yields at least 96 observations. There is no limit on
   * the number of pages. The body lives in `CrawlPage` only so that the
   * verifier unfolds one page at a time; the two are one definition.
   */
  function Crawl(db: Db, w: GpuWidths, classify: Classifier.Classification, store: StoreInfo, pages: seq<Visit>, k: nat)
    : (r: (Db, seq<nat>))
    ensures |r.1| >= 1 && r.1[|r.1| - 1] < PageSize
    ensures forall j :: 0 <= j < |r.1| - 1 ==> r.1[j] >= PageSize
    ensures |r.0.history| == |db.history| + Sum(r.1) && db.history <= r.0.history
    decreases |pages| - k, 1
  {
    CrawlPage(db, w, classify, store, pages, k)
  }

  /** Page `k + 1` itself: run it, then stop on a short page or crawl on from the next one. */
  function CrawlPage(db: Db, w: GpuWidths, classify: Classifier.Classification, store: StoreInfo, pages: seq<Visit>, k: nat)
    : (r: (Db, seq<nat>))
    ensures |r.1| >= 1 && r.1[|r.1| - 1] < PageSize
    ensures forall j :: 0 <= j < |r.1| - 1 ==> r.1[j] >= PageSize
    ensures |r.0.history| == |db.history| + Sum(r.1) && db.history <= r.0.history
    decreases |pages| - k, 0
  {
    var run := RunOnce(db, w, classify, store, VisitAt(pages, k));
    if run.1 < PageSize then (run.0, [run.1])
    else
      var rest := Crawl(run.0, w, classify, store, pages, k + 1);
      SumCons(run.1, rest.1);
      (rest.0, [run.1] + rest.1)
  }

  lemma {:induction false} SumCons(x: nat, xs: seq<nat>)
    ensures Sum([x] + xs) == x + Sum(xs)
    decreases |xs|
  {
    if xs != [] {
      assert ([x] + xs)[..|xs|] == [x] + xs[..|xs| - 1];
      SumCons(x, xs[..|xs| - 1]);
    }
  }

  /** One page of the pagination loop: a short page ends it, a full one goes on to the next page. */
  lemma CrawlStep(db: Db, w: GpuWidths, classify: Classifier.Classification, store: StoreInfo, pages: seq<Visit>,
                  k: nat, after: Db, count: nat)
    requires after == RunOnce(db, w, classify, store, VisitAt(pages, k)).0
    requires count == RunOnce(db, w, classify, store, VisitAt(pages, k)).1
    ensures count < PageSize ==>
      Crawl(db, w, classify, store, pages, k).0 == after && Crawl(db, w, classify, store, pages, k).1 == [count]
    ensures count >= PageSize ==>
      && k < |pages|
      && Crawl(db, w, classify, store, pages, k).0 == Crawl(after, w, classify, store, pages, k + 1).0
      && Crawl(db, w, classify, store, pages, k).1 == [count] + Crawl(after, w, classify, store, pages, k + 1).1
  {
  }

  /**
   * A page that cannot yield 96 observations (no connection, timed out, or
   * fewer than 96 containers) is the last one fetched for the store.
   */
  lemma ShortPageStops(db: Db, w: GpuWidths, classify: Classifier.Classification, store: StoreInfo, pages: seq<Visit>, k: nat)
    requires !VisitAt(pages, k).Loaded? || |VisitAt(pages, k).containers| < PageSize
    ensures var run := RunOnce(db, w, classify, store, VisitAt(pages, k));
      Crawl(db, w, classify, store, pages, k).1 == [run.1]
  {
  }

  /**
   * Pages yielding 96, 96 and then 40 observations: exactly three pages are
   * fetched, and the counts are those three.
   */
  lemma ThreePages(db: Db, w: GpuWidths, classify: Classifier.Classification, store: StoreInfo, pages: seq<Visit>)
    requires RunOnce(db, w, classify, store, VisitAt(pages, 0)).1 == 96
    requires var d1 := RunOnce(db, w, classify, store, VisitAt(pages, 0)).0;
      RunOnce(d1, w, classify, store, VisitAt(pages, 1)).1 == 96
    requires var d1 := RunOnce(db, w, classify, store, VisitAt(pages, 0)).0;
      var d2 := RunOnce(d1, w, classify, store, VisitAt(pages, 1)).0;
      RunOnce(d2, w, classify, store, VisitAt(pages, 2)).1 == 40
    ensures Crawl(db, w, classify, store, pages, 0).1 == [96, 96, 40]
  {
    var d1 := RunOnce(db, w, classify, store, VisitAt(pages, 0)).0;
    var d2 := RunOnce(d1, w, classify, store, VisitAt(pages, 1)).0;
    var d3 := RunOnce(d2, w, classify, store, VisitAt(pages, 2)).0;
    CrawlStep(db, w, classify, store, pages, 0, d1, 96);
    CrawlStep(d1, w, classify, store, pages, 1, d2, 96);
    CrawlStep(d2, w, classify, store, pages, 2, d3, 40);
  }

  /** `run_scraper` on the live database. */
  method RunScraper(db: Database, store: StoreInfo, visit: Visit) returns (count: nat)
    requires db.Valid()
    modifies db
    ensures db.Valid()
    ensures var r := RunOnce(old(db.Snapshot()), db.widths, Classifier.ParseGpuDetails, store, visit);
      db.Snapshot() == r.0 && count == r.1
  {
    match visit
    case DbDown =>
      count := 0;
    case TimedOut =>
      var storeId := db.GetOrCreateStore(store.name, store.city, store.state);
      count := 0;
    case Loaded(containers, faults) =>
      var storeId := db.GetOrCreateStore(store.name, store.city, store.state);
      count := ProcessPage(db, storeId, containers, faults);
  }

  /** The pagination loop of lines 314-326 for one store, on the live database. */
  method CrawlStore(db: Database, store: StoreInfo, pages: seq<Visit>) returns (counts: seq<nat>)
    requires db.Valid()
    modifies db
    ensures db.Valid()
    ensures var r := Crawl(old(db.Snapshot()), db.widths, Classifier.ParseGpuDetails, store, pages, 0);
      db.Snapshot() == r.0 && counts == r.1
  {
    ghost var start := db.Snapshot();
    var pageNum: nat := 1;
    counts := [];
    while true
      invariant pageNum == |counts| + 1 && |counts| <= |pages|
      invariant db.Valid()
      invariant var rest := Crawl(db.Snapshot(), db.widths, Classifier.ParseGpuDetails, store, pages, pageNum - 1);
        && Crawl(start, db.widths, Classifier.ParseGpuDetails, store, pages, 0).0 == rest.0
        && Crawl(start, db.widths, Classifier.ParseGpuDetails, store, pages, 0).1 == counts + rest.1
      decreases |pages| - |counts|
    {
      ghost var before := db.Snapshot();
      var count := RunScraper(db, store, VisitAt(pages, pageNum - 1));
      CrawlStep(before, db.widths, Classifier.ParseGpuDetails, store, pages, pageNum - 1, db.Snapshot(), count);
      var page: seq<nat> := [count];
      if count < PageSize {
        counts := counts + page;
        return;
      }
      ghost var rest := Crawl(db.Snapshot(), db.widths, Classifier.ParseGpuDetails, store, pages, pageNum);
      Text.AppendAssoc(counts, page, rest.1);
      counts := counts + page;
      pageNum := pageNum + 1;
    }
  }

  /** The visits for the store at `s`; a store without any times out at once. */
  function PagesFor(visits: seq<seq<Visit>>, s: nat): seq<Visit> {
    if s < |visits| then visits[s] else []
  }

  /** Lines 311-329 for the first `n` stores: each in turn, with its own pages. */
  function CrawlStores(db: Db, w: GpuWidths, classify: Classifier.Classification, stores: seq<StoreInfo>,
                       visits: seq<seq<Visit>>, n: nat): (r: (Db, seq<seq<nat>>))
    requires n <= |stores|
    ensures |r.1| == n
    ensures forall s :: 0 <= s < n ==> |r.1[s]| >= 1 && r.1[s][|r.1[s]| - 1] < PageSize
  {
    if n == 0 then (db, [])
    else
      var prev := CrawlStores(db, w, classify, stores, visits, n - 1);
      var last := Crawl(prev.0, w, classify, stores[n - 1], PagesFor(visits, n - 1), 0);
      (last.0, prev.1 + [last.1])
  }

  /** One pass of the outer loop: crawling store `i` extends the first `i` stores' run. */
  lemma CrawlStoresStep(db: Db, w: GpuWidths, classify: Classifier.Classification, stores: seq<StoreInfo>,
                        visits: seq<seq<Visit>>, i: nat, before: Db, counts: seq<seq<nat>>, after: Db, last: seq<nat>)
    requires i < |stores|
    requires before == CrawlStores(db, w, classify, stores, visits, i).0
    requires counts == CrawlStores(db, w, classify, stores, visits, i).1
    requires after == Crawl(before, w, classify, stores[i], PagesFor(visits, i), 0).0
    requires last == Crawl(before, w, classify, stores[i], PagesFor(visits, i), 0).1
    ensures CrawlStores(db, w, classify, stores, visits, i + 1).0 == after
    ensures CrawlStores(db, w, classify, stores, visits, i + 1).1 == counts + [last]
  {
  }

  /** The entry point's outer loop, on the live database. */
  method CrawlAll(db: Database, visits: seq<seq<Visit>>) returns (counts: seq<seq<nat>>)
    requires db.Valid()
    modifies db
    ensures db.Valid()
    ensures var r := CrawlStores(old(db.Snapshot()), db.widths, Classifier.ParseGpuDetails, StoresToCheck, visits, |StoresToCheck|);
      db.Snapshot() == r.0 && counts == r.1
  {
    ghost var start := db.Snapshot();
    counts := [];
    for s := 0 to |StoresToCheck|
      invariant db.Valid()
      invariant db.Snapshot() == CrawlStores(start, db.widths, Classifier.ParseGpuDetails, StoresToCheck, visits, s).0
      invariant counts == CrawlStores(start, db.widths, Classifier.ParseGpuDetails, StoresToCheck, visits, s).1
    {
      ghost var before := db.Snapshot();
      var storeCounts := CrawlStore(db, StoresToCheck[s], PagesFor(visits, s));
      CrawlStoresStep(start, db.widths, Classifier.ParseGpuDetails, StoresToCheck, visits, s, before, counts,
                      db.Snapshot(), storeCounts);
      var row: seq<seq<nat>> := [storeCounts];
      counts := counts + row;
    }
  }
}
