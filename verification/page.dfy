/**
 * One results page: what the scraper reads out of each product container
 * (`li.product_wrapper`) and how the containers of a page, in document
 * order, turn into rows of the four tables.
 */
module Page {
  import opened Wrappers
  import opened Text
  import opened Tables
  import opened Reconciler
  import Classifier

  /** The default for an absent name or SKU; an item carrying it is skipped. */
  const NotAvailable: string := "N/A"
  const SiteRoot: string := "https://www.microcenter.com"
  const DefaultPrice: string := "0.00"
  const DefaultBrand: string := "Unknown"
  const SkuLabel: string := "SKU:"
  const SoldOut: string := "SOLD OUT"
  const UnknownStock: string := "UNKNOWN"

  /** The attributes of the `a.productClickItemV2` link; `None` is an absent attribute. */
  datatype NameLink = NameLink(
    dataName: Option<string>, dataBrand: Option<string>, href: Option<string>, dataPrice: Option<string>)

  /** The attributes of the `img.SearchResultProductImage` element. */
  datatype Image = Image(dataSrc: Option<string>, src: Option<string>)

  /**
   * The parts of a product container the scraper looks at; `None` where
   * the element is absent. `stockText` is a `div.stock` that is a direct
   * child of the container; `text` is the container's whole text.
   */
  datatype Container = Container(
    nameLink: Option<NameLink>,
    skuText: Option<string>,
    inventoryText: Option<string>,
    stockText: Option<string>,
    text: string,
    image: Option<Image>)

  /** What one container yields; `imageUrl` is `None` where NULL is stored. */
  datatype Item = Item(
    fullName: string, brand: string, productUrl: string, price: string,
    sku: string, stockStatus: string, imageUrl: Option<string>)

  function GetOr(a: Option<string>, default: string): string {
    if a.Some? then a.value else default
  }

  /** The SKU: the `p.sku` text with every "SKU:" removed, stripped; "N/A" without one. */
  function SkuOf(c: Container): (r: string)
    ensures c.skuText.None? ==> r == NotAvailable
    ensures c.skuText.Some? && Find(c.skuText.value, SkuLabel).None? ==> r == Strip(c.skuText.value)
  {
    match c.skuText
    case None => NotAvailable
    case Some(t) =>
      var r := Strip(RemoveAll(t, SkuLabel));
      assert Find(t, SkuLabel).None? ==> r == Strip(t) by {
        if Find(t, SkuLabel).None? { RemoveAllAbsent(t, SkuLabel); }
      }
      r
  }

  /**
   * A SKU text made of the "SKU:" label and a rest that holds no further
   * label yields that rest, stripped.
   */
  lemma SkuAfterLabel(c: Container, x: string)
    requires c.skuText == Some(SkuLabel + x)
    requires !Contains(x, SkuLabel)
    ensures SkuOf(c) == Strip(x)
  {
    var t := SkuLabel + x;
    assert t[..|SkuLabel|] == SkuLabel;
    assert t[|SkuLabel|..] == x;
    RemoveAllAbsent(x, SkuLabel);
  }

  /** The usual layout: "SKU: 123456" gives "123456". */
  lemma SkuExample(c: Container)
    requires c.skuText == Some("SKU: 123456")
    ensures SkuOf(c) == "123456"
  {
    var x := " 123456";
    assert "SKU: 123456" == SkuLabel + x;
    ExampleHasNoLabel(x);
    SkuAfterLabel(c, x);
    ExampleStripped(x);
  }

  lemma ExampleStripped(x: string)
    requires x == " 123456"
    ensures Strip(x) == "123456"
  {
    StripTrims(x, 1, |x|);
  }

  lemma ExampleHasNoLabel(x: string)
    requires x == " 123456"
    ensures !Contains(x, SkuLabel)
  {
    forall j: nat | j + |SkuLabel| <= |x| ensures !OccursAt(x, SkuLabel, j) {
      assert x[j..j + |SkuLabel|][0] == x[j] != SkuLabel[0];
    }
  }

  /**
   * The stock status, by precedence: the inventory span with its whitespace
   * runs collapsed to single spaces; else the stock div stripped and
   * upper-cased; else "SOLD OUT" when the upper-cased container text says
   * so; else "UNKNOWN".
   */
  function StockStatus(c: Container): (r: string)
    ensures c.inventoryText.Some? ==> Split(r) == Split(c.inventoryText.value)
    ensures c.inventoryText.Some? ==> r == Join(Split(r))
    ensures c.inventoryText.None? && c.stockText.Some? ==> r == Upper(Strip(c.stockText.value))
    ensures c.inventoryText.None? && c.stockText.Some? ==>
      |r| == |Strip(c.stockText.value)| && Upper(r) == r
    ensures c.inventoryText.None? && c.stockText.None? ==>
      (r == SoldOut <==> Contains(Upper(c.text), SoldOut)) && (r != SoldOut ==> r == UnknownStock)
  {
    match c.inventoryText
    case Some(t) =>
      SplitJoin(Split(t));
      Join(Split(t))
    case None =>
      match c.stockText
      case Some(t) =>
        UpperIdempotent(Strip(t));
        Upper(Strip(t))
      case None =>
        if Contains(Upper(c.text), SoldOut) then SoldOut else UnknownStock
  }

  /**
   * The image url: "N/A" without an image element; otherwise `data-src`
   * when present and non-empty, else `src`, which may be absent (NULL).
   */
  function ImageUrl(c: Container): (r: Option<string>)
    ensures c.image.None? ==> r == Some(NotAvailable)
    ensures c.image.Some? && c.image.value.dataSrc.Some? && c.image.value.dataSrc.value != "" ==>
      r == c.image.value.dataSrc
    ensures c.image.Some? && (c.image.value.dataSrc.None? || c.image.value.dataSrc.value == "") ==>
      r == c.image.value.src
  {
    match c.image
    case None => Some(NotAvailable)
    case Some(img) =>
      if img.dataSrc.Some? && img.dataSrc.value != "" then img.dataSrc else img.src
  }

  /**
   * Lines 236-263: the item a container yields, or `None` when it is
   * skipped — no name link, or a name or SKU that comes out as "N/A".
   */
  function Extract(c: Container): (r: Option<Item>)
    ensures r.None? <==>
      c.nameLink.None? || Strip(GetOr(c.nameLink.value.dataName, NotAvailable)) == NotAvailable
      || SkuOf(c) == NotAvailable
    ensures r.Some? ==>
      && r.value.fullName != NotAvailable && r.value.sku != NotAvailable
      && r.value.fullName == Strip(GetOr(c.nameLink.value.dataName, NotAvailable))
      && r.value.brand == Strip(GetOr(c.nameLink.value.dataBrand, DefaultBrand))
      && r.value.productUrl == SiteRoot + GetOr(c.nameLink.value.href, NotAvailable)
      && r.value.price == GetOr(c.nameLink.value.dataPrice, DefaultPrice)
      && r.value.sku == SkuOf(c) && r.value.stockStatus == StockStatus(c) && r.value.imageUrl == ImageUrl(c)
  {
    match c.nameLink
    case None => None
    case Some(link) =>
      var fullName := Strip(GetOr(link.dataName, NotAvailable));
      var sku := SkuOf(c);
      if fullName == NotAvailable || sku == NotAvailable then None
      else
        Some(Item(
          fullName,
          Strip(GetOr(link.dataBrand, DefaultBrand)),
          SiteRoot + GetOr(link.href, NotAvailable),
          GetOr(link.dataPrice, DefaultPrice),
          sku,
          StockStatus(c),
          ImageUrl(c)))
  }

  /** The server fault, if any, on the first gpus write for the container at `i`. */
  function FaultAt(faults: seq<Option<int>>, i: nat): Option<int> {
    if i < |faults| then faults[i] else None
  }

  /**
   * Lines 265-283 for one extracted item: classify, get-or-create the gpu;
   * when that yields an id, get-or-create the product and log one price
   * observation. The flag says whether an observation was logged.
   */
  function RecordItem(db: Db, w: GpuWidths, storeId: nat, item: Item, details: Classifier.GpuDetails, fault: Option<int>): (r: (Db, bool))
    ensures r.0.stores == db.stores && r.0.nextStoreId == db.nextStoreId
    ensures !r.1 ==> r.0.history == db.history && r.0.products == db.products
    ensures r.1 ==> |r.0.history| == |db.history| + 1 && db.history <= r.0.history
    ensures r.1 ==> Logged(r.0, |db.history|, storeId, item)
  {
    var g := UpsertGpu(db.gpus, db.nextGpuId, w, details.brand, details.modelName, details.manufacturer,
                       item.fullName, fault);
    match g.id
    case None => (db.(gpus := g.rows, nextGpuId := g.nextId), false)
    case Some(gpuId) =>
      var p := UpsertProduct(db.products, db.nextProductId, storeId, gpuId, item.sku, item.productUrl, item.imageUrl);
      var h := AppendPrice(db.history, db.nextHistoryId, p.id, item.price, item.stockStatus);
      (Db(db.stores, db.nextStoreId, g.rows, g.nextId, p.rows, p.nextId, h.rows, h.nextId), true)
  }

  /** Line 272: when the gpu get-or-create yields no id, the item logs nothing and the tables stay as they were. */
  lemma GpuNoneLogsNothing(db: Db, w: GpuWidths, storeId: nat, item: Item, details: Classifier.GpuDetails, fault: Option<int>)
    requires UpsertGpu(db.gpus, db.nextGpuId, w, details.brand, details.modelName, details.manufacturer,
                       item.fullName, fault).id.None?
    ensures !RecordItem(db, w, storeId, item, details, fault).1
    ensures RecordItem(db, w, storeId, item, details, fault).0 == db
  {
  }

  /**
   * The history row at `at` records the item's price and stock status
   * against the product with the item's SKU at the store, and that product
   * carries the item's url and image.
   */
  predicate Logged(db: Db, at: nat, storeId: nat, item: Item) {
    var k := FindProduct(db.products, item.sku, storeId);
    && at < |db.history|
    && db.history[at].price == item.price && db.history[at].stockStatus == item.stockStatus
    && k.Some? && db.products[k.value].id == db.history[at].productId
    && db.products[k.value].productUrl == item.productUrl && db.products[k.value].imageUrl == item.imageUrl
  }

  /**
   * Lines 236-283 for one container: a skipped container changes nothing;
   * otherwise its item is recorded.
   */
  function ProcessItem(db: Db, w: GpuWidths, classify: Classifier.Classification, storeId: nat, c: Container, fault: Option<int>): (r: (Db, bool))
    ensures r.0.stores == db.stores && r.0.nextStoreId == db.nextStoreId
    ensures Extract(c).None? ==> r == (db, false)
    ensures !r.1 ==> r.0.history == db.history && r.0.products == db.products
    ensures r.1 ==> |r.0.history| == |db.history| + 1 && db.history <= r.0.history
    ensures r.1 ==> Extract(c).Some? && Logged(r.0, |db.history|, storeId, Extract(c).value)
  {
    match Extract(c)
    case None => (db, false)
    case Some(item) => RecordItem(db, w, storeId, item, classify(item.fullName, item.brand), fault)
  }

  /**
   * The first `n` containers of a page processed in document order, with
   * the faults indexed by position; the count is the number of
   * observations logged. The step is written out in `ProcessThrough` only
   * so that the verifier unfolds one container at a time; the two are one
   * definition.
   */
  function ProcessAll(db: Db, w: GpuWidths, classify: Classifier.Classification, storeId: nat, cs: seq<Container>,
                      faults: seq<Option<int>>, n: nat): (r: (Db, nat))
    requires n <= |cs|
    ensures r.0.stores == db.stores && r.0.nextStoreId == db.nextStoreId
    ensures r.1 <= n
    ensures |r.0.history| == |db.history| + r.1 && db.history <= r.0.history
    decreases n, 0
  {
    if n == 0 then (db, 0) else ProcessThrough(db, w, classify, storeId, cs, faults, n - 1)
  }

  /** The first `i + 1` containers: the first `i`, then the one at `i`. */
  function ProcessThrough(db: Db, w: GpuWidths, classify: Classifier.Classification, storeId: nat, cs: seq<Container>,
                          faults: seq<Option<int>>, i: nat): (r: (Db, nat))
    requires i < |cs|
    ensures r.0.stores == db.stores && r.0.nextStoreId == db.nextStoreId
    ensures r.1 <= i + 1
    ensures |r.0.history| == |db.history| + r.1 && db.history <= r.0.history
    decreases i, 1
  {
    var prev := ProcessAll(db, w, classify, storeId, cs, faults, i);
    var step := ProcessItem(prev.0, w, classify, storeId, cs[i], FaultAt(faults, i));
    (step.0, if step.1 then prev.1 + 1 else prev.1)
  }

  /** Processing the first `n` containers is processing the first `n - 1`, then the last of them. */
  lemma ProcessAllStep(db: Db, w: GpuWidths, classify: Classifier.Classification, storeId: nat, cs: seq<Container>,
                       faults: seq<Option<int>>, n: nat, before: Db, count: nat, after: Db, logged: bool)
    requires 0 < n <= |cs|
    requires before == ProcessAll(db, w, classify, storeId, cs, faults, n - 1).0
    requires count == ProcessAll(db, w, classify, storeId, cs, faults, n - 1).1
    requires after == ProcessItem(before, w, classify, storeId, cs[n - 1], FaultAt(faults, n - 1)).0
    requires logged == ProcessItem(before, w, classify, storeId, cs[n - 1], FaultAt(faults, n - 1)).1
    ensures ProcessAll(db, w, classify, storeId, cs, faults, n).0 == after
    ensures ProcessAll(db, w, classify, storeId, cs, faults, n).1 == if logged then count + 1 else count
  {
  }

  /** A page whose every container is skipped writes nothing at all. */
  lemma {:induction false} AllSkippedWritesNothing(db: Db, w: GpuWidths, classify: Classifier.Classification, storeId: nat, cs: seq<Container>,
                                                   faults: seq<Option<int>>, n: nat)
    requires n <= |cs|
    requires forall i :: 0 <= i < n ==> Extract(cs[i]).None?
    ensures ProcessAll(db, w, classify, storeId, cs, faults, n) == (db, 0)
  {
    if n != 0 {
      AllSkippedWritesNothing(db, w, classify, storeId, cs, faults, n - 1);
      assert Extract(cs[n - 1]).None?;
    }
  }

  /** Every product a page writes names an existing store and gpu, as do the rows before it. */
  lemma RecordItemKeepsLinked(db: Db, w: GpuWidths, storeId: nat, item: Item, details: Classifier.GpuDetails,
                               fault: Option<int>)
    requires Linked(db) && HasStore(db.stores, storeId)
    ensures Linked(RecordItem(db, w, storeId, item, details, fault).0)
  {
    var g := UpsertGpu(db.gpus, db.nextGpuId, w, details.brand, details.modelName, details.manufacturer,
                       item.fullName, fault);
    GpuIdsKept(db.gpus, db.nextGpuId, w, details.brand, details.modelName, details.manufacturer, item.fullName, fault);
    var r := RecordItem(db, w, storeId, item, details, fault).0;
    match g.id
    case None =>
      assert r == db.(gpus := g.rows, nextGpuId := g.nextId);
      LinkedAfterGpuWrite(db, g.rows);
    case Some(gpuId) =>
      var p := UpsertProduct(db.products, db.nextProductId, storeId, gpuId, item.sku, item.productUrl, item.imageUrl);
      var h := AppendPrice(db.history, db.nextHistoryId, p.id, item.price, item.stockStatus);
      assert r.products == p.rows && r.gpus == g.rows && r.history == h.rows && r.stores == db.stores;
      assert HasGpu(g.rows, gpuId) by {
        var k := FindGpu(g.rows, item.fullName).value;
        assert g.rows[k].id == gpuId;
      }
      ProductIdsKept(db.products, db.nextProductId, storeId, gpuId, item.sku, item.productUrl, item.imageUrl);
      forall i | 0 <= i < |r.products|
        ensures HasStore(r.stores, r.products[i].storeId) && HasGpu(r.gpus, r.products[i].gpuId)
      {
        if i < |db.products| {
          assert r.products[i].storeId == db.products[i].storeId && r.products[i].gpuId == db.products[i].gpuId;
          GpuStillThere(db.gpus, g.rows, db.products[i].gpuId);
        }
      }
      forall i | 0 <= i < |r.history| ensures HasProduct(r.products, r.history[i].productId) {
        if i < |db.history| {
          assert r.history[i] == db.history[i];
          ProductStillThere(db.products, p.rows, db.history[i].productId);
        } else {
          var k := FindProduct(p.rows, item.sku, storeId).value;
          assert r.products[k].id == r.history[i].productId;
        }
      }
  }

  lemma GpuStillThere(before: seq<GpuRow>, after: seq<GpuRow>, id: nat)
    requires HasGpu(before, id)
    requires |before| <= |after| && forall j :: 0 <= j < |before| ==> after[j].id == before[j].id
    ensures HasGpu(after, id)
  {
    var k :| 0 <= k < |before| && before[k].id == id;
    assert after[k].id == id;
  }

  lemma ProductStillThere(before: seq<ProductRow>, after: seq<ProductRow>, id: nat)
    requires HasProduct(before, id)
    requires |before| <= |after| && forall j :: 0 <= j < |before| ==> after[j].id == before[j].id
    ensures HasProduct(after, id)
  {
    var k :| 0 <= k < |before| && before[k].id == id;
    assert after[k].id == id;
  }

  lemma LinkedAfterGpuWrite(db: Db, gpus: seq<GpuRow>)
    requires Linked(db)
    requires |db.gpus| <= |gpus| && forall j :: 0 <= j < |db.gpus| ==> gpus[j].id == db.gpus[j].id
    ensures Linked(db.(gpus := gpus))
  {
    forall i | 0 <= i < |db.products| ensures HasGpu(gpus, db.products[i].gpuId) {
      GpuStillThere(db.gpus, gpus, db.products[i].gpuId);
    }
  }

  /** A gpu get-or-create keeps every stored id. */
  lemma GpuIdsKept(rows: seq<GpuRow>, next: nat, w: GpuWidths, brand: string, modelName: string,
                   manufacturer: string, fullName: string, fault: Option<int>)
    ensures var r := UpsertGpu(rows, next, w, brand, modelName, manufacturer, fullName, fault);
      |rows| <= |r.rows| && forall j :: 0 <= j < |rows| ==> r.rows[j].id == rows[j].id
  {
  }

  /** A product get-or-create keeps every stored id and, apart from url and image, every stored row. */
  lemma ProductIdsKept(rows: seq<ProductRow>, next: nat, storeId: nat, gpuId: nat, sku: string,
                       productUrl: string, imageUrl: Option<string>)
    ensures var r := UpsertProduct(rows, next, storeId, gpuId, sku, productUrl, imageUrl);
      && |rows| <= |r.rows|
      && forall j :: 0 <= j < |rows| ==>
           r.rows[j].id == rows[j].id && r.rows[j].storeId == rows[j].storeId && r.rows[j].gpuId == rows[j].gpuId
  {
  }

  /** Referential integrity survives a whole page. */
  lemma {:induction false} ProcessAllKeepsLinked(db: Db, w: GpuWidths, classify: Classifier.Classification, storeId: nat, cs: seq<Container>,
                                                 faults: seq<Option<int>>, n: nat)
    requires n <= |cs| && Linked(db) && HasStore(db.stores, storeId)
    ensures Linked(ProcessAll(db, w, classify, storeId, cs, faults, n).0)
  {
    if n != 0 {
      var prev := ProcessAll(db, w, classify, storeId, cs, faults, n - 1);
      ProcessAllKeepsLinked(db, w, classify, storeId, cs, faults, n - 1);
      match Extract(cs[n - 1])
      case None =>
      case Some(item) =>
        RecordItemKeepsLinked(prev.0, w, storeId, item, classify(item.fullName, item.brand),
                              FaultAt(faults, n - 1));
    }
  }

  /** Lines 265-283 on the live database, for one extracted item. */
  method RecordOne(db: Database, storeId: nat, item: Item, details: Classifier.GpuDetails, fault: Option<int>)
    returns (logged: bool)
    requires db.Valid()
    modifies db
    ensures db.Valid()
    ensures var r := RecordItem(old(db.Snapshot()), db.widths, storeId, item, details, fault);
      db.Snapshot() == r.0 && logged == r.1
  {
    var gpuId := db.GetOrCreateGpu(details.brand, details.modelName, details.manufacturer, item.fullName, fault);
    if gpuId.Some? {
      var productId := db.GetOrCreateProduct(storeId, gpuId.value, item.sku, item.productUrl, item.imageUrl);
      db.LogPriceHistory(productId, item.price, item.stockStatus);
      logged := true;
    } else {
      logged := false;
    }
  }

  /** Lines 235-283 on the live database, for one container. */
  method ProcessOne(db: Database, storeId: nat, c: Container, fault: Option<int>) returns (logged: bool)
    requires db.Valid()
    modifies db
    ensures db.Valid()
    ensures var r := ProcessItem(old(db.Snapshot()), db.widths, Classifier.ParseGpuDetails, storeId, c, fault);
      db.Snapshot() == r.0 && logged == r.1
  {
    match Extract(c)
    case None =>
      logged := false;
    case Some(item) =>
      var details := Classifier.ParseGpuDetails(item.fullName, item.brand);
      logged := RecordOne(db, storeId, item, details, fault);
  }

  /**
   * Lines 234-283 on the live database: each container in turn; the count
   * is the number of price observations logged.
   */
  method ProcessPage(db: Database, storeId: nat, containers: seq<Container>, faults: seq<Option<int>>)
    returns (items: nat)
    requires db.Valid()
    modifies db
    ensures db.Valid()
    ensures var r := ProcessAll(old(db.Snapshot()), db.widths, Classifier.ParseGpuDetails, storeId, containers, faults, |containers|);
      db.Snapshot() == r.0 && items == r.1
  {
    ghost var start := db.Snapshot();
    items := 0;
    var i := 0;
    while i < |containers|
      invariant 0 <= i <= |containers|
      invariant db.Valid()
      invariant db.Snapshot() == ProcessAll(start, db.widths, Classifier.ParseGpuDetails, storeId, containers, faults, i).0
      invariant items == ProcessAll(start, db.widths, Classifier.ParseGpuDetails, storeId, containers, faults, i).1
    {
      ghost var before, count := db.Snapshot(), items;
      var logged := ProcessOne(db, storeId, containers[i], FaultAt(faults, i));
      if logged {
        items := items + 1;
      }
      i := i + 1;
      ProcessAllStep(start, db.widths, Classifier.ParseGpuDetails, storeId, containers, faults, i, before, count, db.Snapshot(), logged);
    }
  }
}
