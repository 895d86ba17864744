/**
 * The four tables the scraper writes (stores, gpus, products, price_history)
 * as sequences of rows in insertion order, each with its own auto-increment
 * counter, and the effect of each get-or-create statement pair on them.
 */
module Tables {
  import opened Wrappers
  import opened Text
  import Classifier

  /** MySQL's ER_DATA_TOO_LONG: a value does not fit its column. */
  const ErrDataTooLong: int := 1406

  datatype StoreRow = StoreRow(id: nat, name: string, city: string, state: string)

  datatype GpuRow = GpuRow(id: nat, brand: string, modelName: string, manufacturer: string, fullName: string)

  /** `imageUrl` is `None` where the scraper stores SQL NULL. */
  datatype ProductRow = ProductRow(
    id: nat, storeId: nat, gpuId: nat, sku: string, productUrl: string, imageUrl: Option<string>)

  datatype PriceRow = PriceRow(id: nat, productId: nat, price: string, stockStatus: string)

  /** The declared widths of the gpus table's text columns. */
  datatype GpuWidths = GpuWidths(brand: nat, modelName: nat, manufacturer: nat, fullName: nat)

  /** The result of a get-or-create: the new table, its counter and the row's id. */
  datatype Upserted<R> = Upserted(rows: seq<R>, nextId: nat, id: nat)

  /** The result of `get_or_create_gpu`; `id` is `None` where it returns None. */
  datatype GpuUpserted = GpuUpserted(rows: seq<GpuRow>, nextId: nat, id: Option<nat>, updateIssued: bool)

  // ---------------------------------------------------------------------
  // Table invariants: ids are positive, below the counter and increasing
  // in insertion order; the natural key is unique.
  // ---------------------------------------------------------------------

  predicate StoresOk(rows: seq<StoreRow>, next: nat) {
    && 1 <= next
    && (forall i :: 0 <= i < |rows| ==> 1 <= rows[i].id < next)
    && (forall i, j :: 0 <= i < j < |rows| ==> rows[i].id < rows[j].id)
    && (forall i, j :: 0 <= i < j < |rows| ==> rows[i].name != rows[j].name || rows[i].city != rows[j].city)
  }

  predicate GpusOk(rows: seq<GpuRow>, next: nat) {
    && 1 <= next
    && (forall i :: 0 <= i < |rows| ==> 1 <= rows[i].id < next)
    && (forall i, j :: 0 <= i < j < |rows| ==> rows[i].id < rows[j].id)
    && (forall i, j :: 0 <= i < j < |rows| ==> rows[i].fullName != rows[j].fullName)
  }

  predicate ProductsOk(rows: seq<ProductRow>, next: nat) {
    && 1 <= next
    && (forall i :: 0 <= i < |rows| ==> 1 <= rows[i].id < next)
    && (forall i, j :: 0 <= i < j < |rows| ==> rows[i].id < rows[j].id)
    && (forall i, j :: 0 <= i < j < |rows| ==> rows[i].sku != rows[j].sku || rows[i].storeId != rows[j].storeId)
  }

  predicate PricesOk(rows: seq<PriceRow>, next: nat) {
    && 1 <= next
    && (forall i :: 0 <= i < |rows| ==> 1 <= rows[i].id < next)
    && (forall i, j :: 0 <= i < j < |rows| ==> rows[i].id < rows[j].id)
  }

  // ---------------------------------------------------------------------
  // Lookups: the SELECT by natural key, as the index of the matching row.
  // ---------------------------------------------------------------------

  /** `SELECT store_id FROM stores WHERE name = %s AND city = %s`. */
  function FindStore(rows: seq<StoreRow>, name: string, city: string): (r: Option<nat>)
    ensures r.Some? ==> r.value < |rows| && rows[r.value].name == name && rows[r.value].city == city
    ensures r.Some? ==> forall j :: 0 <= j < r.value ==> rows[j].name != name || rows[j].city != city
    ensures r.None? ==> forall j :: 0 <= j < |rows| ==> rows[j].name != name || rows[j].city != city
  {
    if rows == [] then None
    else if rows[0].name == name && rows[0].city == city then Some(0)
    else
      match FindStore(rows[1..], name, city)
      case Some(i) => Some(i + 1)
      case None => None
  }

  /** `SELECT ... FROM gpus WHERE full_name = %s`. */
  function FindGpu(rows: seq<GpuRow>, fullName: string): (r: Option<nat>)
    ensures r.Some? ==> r.value < |rows| && rows[r.value].fullName == fullName
    ensures r.Some? ==> forall j :: 0 <= j < r.value ==> rows[j].fullName != fullName
    ensures r.None? ==> forall j :: 0 <= j < |rows| ==> rows[j].fullName != fullName
  {
    if rows == [] then None
    else if rows[0].fullName == fullName then Some(0)
    else
      match FindGpu(rows[1..], fullName)
      case Some(i) => Some(i + 1)
      case None => None
  }

  /** `SELECT product_id FROM products WHERE microcenter_sku = %s AND store_id = %s`. */
  function FindProduct(rows: seq<ProductRow>, sku: string, storeId: nat): (r: Option<nat>)
    ensures r.Some? ==> r.value < |rows| && rows[r.value].sku == sku && rows[r.value].storeId == storeId
    ensures r.Some? ==> forall j :: 0 <= j < r.value ==> rows[j].sku != sku || rows[j].storeId != storeId
    ensures r.None? ==> forall j :: 0 <= j < |rows| ==> rows[j].sku != sku || rows[j].storeId != storeId
  {
    if rows == [] then None
    else if rows[0].sku == sku && rows[0].storeId == storeId then Some(0)
    else
      match FindProduct(rows[1..], sku, storeId)
      case Some(i) => Some(i + 1)
      case None => None
  }

  /** A row appended under an absent key is found at the new last index. */
  lemma {:induction false} FindStoreAppended(rows: seq<StoreRow>, x: StoreRow)
    requires FindStore(rows, x.name, x.city).None?
    ensures FindStore(rows + [x], x.name, x.city) == Some(|rows|)
  {
    if rows != [] {
      assert (rows + [x])[1..] == rows[1..] + [x];
      FindStoreAppended(rows[1..], x);
    }
  }

  lemma {:induction false} FindGpuAppended(rows: seq<GpuRow>, x: GpuRow)
    requires FindGpu(rows, x.fullName).None?
    ensures FindGpu(rows + [x], x.fullName) == Some(|rows|)
  {
    if rows != [] {
      assert (rows + [x])[1..] == rows[1..] + [x];
      FindGpuAppended(rows[1..], x);
    }
  }

  lemma {:induction false} FindProductAppended(rows: seq<ProductRow>, x: ProductRow)
    requires FindProduct(rows, x.sku, x.storeId).None?
    ensures FindProduct(rows + [x], x.sku, x.storeId) == Some(|rows|)
  {
    if rows != [] {
      assert (rows + [x])[1..] == rows[1..] + [x];
      FindProductAppended(rows[1..], x);
    }
  }

  /** A lookup sees only the key columns: rewriting the others keeps every answer. */
  lemma {:induction false} FindGpuSameKeys(a: seq<GpuRow>, b: seq<GpuRow>, fullName: string)
    requires |a| == |b| && forall j :: 0 <= j < |a| ==> a[j].fullName == b[j].fullName
    ensures FindGpu(a, fullName) == FindGpu(b, fullName)
  {
    if a != [] {
      FindGpuSameKeys(a[1..], b[1..], fullName);
    }
  }

  lemma {:induction false} FindProductSameKeys(a: seq<ProductRow>, b: seq<ProductRow>, sku: string, storeId: nat)
    requires |a| == |b| && forall j :: 0 <= j < |a| ==> a[j].sku == b[j].sku && a[j].storeId == b[j].storeId
    ensures FindProduct(a, sku, storeId) == FindProduct(b, sku, storeId)
  {
    if a != [] {
      FindProductSameKeys(a[1..], b[1..], sku, storeId);
    }
  }

  // ---------------------------------------------------------------------
  // get_or_create_store
  // ---------------------------------------------------------------------

  /**
   * `get_or_create_store`: a hit returns the stored id and changes nothing
   * (a different `state` is ignored); a miss appends one row with a fresh id.
   */
  function UpsertStore(rows: seq<StoreRow>, next: nat, name: string, city: string, state: string): (r: Upserted<StoreRow>)
    ensures FindStore(r.rows, name, city).Some? && r.rows[FindStore(r.rows, name, city).value].id == r.id
    ensures FindStore(rows, name, city).Some? ==> r.rows == rows && r.nextId == next
    ensures FindStore(rows, name, city).None? ==>
      r.id == next && r.nextId == next + 1 && r.rows == rows + [StoreRow(next, name, city, state)]
  {
    match FindStore(rows, name, city)
    case Some(i) => Upserted(rows, next, rows[i].id)
    case None =>
      FindStoreAppended(rows, StoreRow(next, name, city, state));
      Upserted(rows + [StoreRow(next, name, city, state)], next + 1, next)
  }

  /** The store table's invariant survives a get-or-create. */
  lemma UpsertStoreKeepsOk(rows: seq<StoreRow>, next: nat, name: string, city: string, state: string)
    requires StoresOk(rows, next)
    ensures var r := UpsertStore(rows, next, name, city, state); StoresOk(r.rows, r.nextId)
  {
  }

  /** A second get-or-create of the same store returns the same id and writes nothing. */
  lemma StoreRepeat(rows: seq<StoreRow>, next: nat, name: string, city: string, state1: string, state2: string)
    ensures var r1 := UpsertStore(rows, next, name, city, state1);
      UpsertStore(r1.rows, r1.nextId, name, city, state2) == r1
  {
  }

  // ---------------------------------------------------------------------
  // get_or_create_product
  // ---------------------------------------------------------------------

  /**
   * `get_or_create_product`: a hit on (sku, store) rewrites only the url and
   * the image of that row; a miss appends one row with a fresh id.
   */
  function UpsertProduct(rows: seq<ProductRow>, next: nat, storeId: nat, gpuId: nat, sku: string,
                         productUrl: string, imageUrl: Option<string>): (r: Upserted<ProductRow>)
    ensures FindProduct(r.rows, sku, storeId).Some? && r.rows[FindProduct(r.rows, sku, storeId).value].id == r.id
    ensures match FindProduct(rows, sku, storeId)
      case Some(i) =>
        && r.id == rows[i].id && r.nextId == next && |r.rows| == |rows|
        && (forall j :: 0 <= j < |rows| && j != i ==> r.rows[j] == rows[j])
        && r.rows[i].storeId == rows[i].storeId && r.rows[i].gpuId == rows[i].gpuId && r.rows[i].sku == rows[i].sku
        && r.rows[i].productUrl == productUrl && r.rows[i].imageUrl == imageUrl
      case None =>
        r.id == next && r.nextId == next + 1
        && r.rows == rows + [ProductRow(next, storeId, gpuId, sku, productUrl, imageUrl)]
  {
    match FindProduct(rows, sku, storeId)
    case Some(i) =>
      var updated := rows[i := rows[i].(productUrl := productUrl, imageUrl := imageUrl)];
      FindProductSameKeys(rows, updated, sku, storeId);
      Upserted(updated, next, rows[i].id)
    case None =>
      FindProductAppended(rows, ProductRow(next, storeId, gpuId, sku, productUrl, imageUrl));
      Upserted(rows + [ProductRow(next, storeId, gpuId, sku, productUrl, imageUrl)], next + 1, next)
  }

  /** The product table's invariant survives a get-or-create. */
  lemma UpsertProductKeepsOk(rows: seq<ProductRow>, next: nat, storeId: nat, gpuId: nat, sku: string,
                             productUrl: string, imageUrl: Option<string>)
    requires ProductsOk(rows, next)
    ensures var r := UpsertProduct(rows, next, storeId, gpuId, sku, productUrl, imageUrl); ProductsOk(r.rows, r.nextId)
  {
  }

  /**
   * Two get-or-creates of one (sku, store) return the same id; the row keeps
   * the first call's gpu and takes the second call's url and image.
   */
  lemma ProductRepeat(rows: seq<ProductRow>, next: nat, storeId: nat, sku: string,
                      gpu1: nat, url1: string, image1: Option<string>,
                      gpu2: nat, url2: string, image2: Option<string>)
    ensures var r1 := UpsertProduct(rows, next, storeId, gpu1, sku, url1, image1);
      var r2 := UpsertProduct(r1.rows, r1.nextId, storeId, gpu2, sku, url2, image2);
      var k := FindProduct(r2.rows, sku, storeId).value;
      && r2.id == r1.id && r2.nextId == r1.nextId && |r2.rows| == |r1.rows|
      && r2.rows[k].productUrl == url2 && r2.rows[k].imageUrl == image2
      && r2.rows[k].gpuId == r1.rows[k].gpuId && r2.rows[k].storeId == storeId && r2.rows[k].sku == sku
  {
    var r1 := UpsertProduct(rows, next, storeId, gpu1, sku, url1, image1);
    var k := FindProduct(r1.rows, sku, storeId).value;
    var r2 := UpsertProduct(r1.rows, r1.nextId, storeId, gpu2, sku, url2, image2);
    assert FindProduct(r2.rows, sku, storeId).value == k;
  }

  // ---------------------------------------------------------------------
  // get_or_create_gpu
  // ---------------------------------------------------------------------

  /** An incoming brand or manufacturer, or the stored one when the incoming value is "Unknown". */
  function Known(incoming: string, stored: string): string {
    if incoming == Classifier.Unknown then stored else incoming
  }

  /**
   * Lines 108-110: some incoming field differs, ignoring an incoming
   * "Unknown" brand or manufacturer; that is, writing the known incoming
   * values would change the row.
   */
  predicate NeedsUpdate(stored: GpuRow, brand: string, modelName: string, manufacturer: string)
    ensures NeedsUpdate(stored, brand, modelName, manufacturer) <==>
      Overwritten(stored, Known(brand, stored.brand), modelName, Known(manufacturer, stored.manufacturer)) != stored
  {
    || (stored.brand != brand && brand != Classifier.Unknown)
    || stored.modelName != modelName
    || (stored.manufacturer != manufacturer && manufacturer != Classifier.Unknown)
  }

  /**
   * The error the UPDATE statement raises: `fault` stands for a server error
   * outside the model; otherwise ER_DATA_TOO_LONG when a value is too wide.
   */
  function UpdateError(w: GpuWidths, brand: string, modelName: string, manufacturer: string,
                       fault: Option<int>): Option<int>
  {
    if fault.Some? then fault
    else if |brand| <= w.brand && |modelName| <= w.modelName && |manufacturer| <= w.manufacturer then None
    else Some(ErrDataTooLong)
  }

  /** The error the INSERT statement raises, as for `UpdateError` plus the full_name column. */
  function InsertError(w: GpuWidths, brand: string, modelName: string, manufacturer: string, fullName: string,
                       fault: Option<int>): Option<int>
  {
    if fault.Some? then fault
    else if |fullName| <= w.fullName then UpdateError(w, brand, modelName, manufacturer, None)
    else Some(ErrDataTooLong)
  }

  /** The row as an UPDATE of all three descriptive fields leaves it. */
  function Overwritten(stored: GpuRow, brand: string, modelName: string, manufacturer: string): GpuRow {
    stored.(brand := brand, modelName := modelName, manufacturer := manufacturer)
  }

  /**
   * `get_or_create_gpu`. `fault` is the server error, if any, that the first
   * write statement of the call (the UPDATE on a hit, the first INSERT on a
   * miss) raises for reasons outside the model.
   */
  function UpsertGpu(rows: seq<GpuRow>, next: nat, w: GpuWidths, brand: string, modelName: string,
                     manufacturer: string, fullName: string, fault: Option<int>): (r: GpuUpserted)
    ensures r.id.Some? ==>
      FindGpu(r.rows, fullName).Some? && r.rows[FindGpu(r.rows, fullName).value].id == r.id.value
    ensures r.id.None? ==> r.rows == rows && r.nextId == next
    ensures FindGpu(rows, fullName).Some? ==> r.id.Some? && r.nextId == next && |r.rows| == |rows|
    ensures FindGpu(rows, fullName).None? ==> !r.updateIssued && r.nextId == next + (if r.id.Some? then 1 else 0)
  {
    match FindGpu(rows, fullName)
    case Some(i) =>
      var stored := rows[i];
      if !NeedsUpdate(stored, brand, modelName, manufacturer) then
        GpuUpserted(rows, next, Some(stored.id), false)
      else if UpdateError(w, brand, modelName, manufacturer, fault).Some? then
        GpuUpserted(rows, next, Some(stored.id), true)
      else
        var updated := rows[i := Overwritten(stored, brand, modelName, manufacturer)];
        FindGpuSameKeys(rows, updated, fullName);
        GpuUpserted(updated, next, Some(stored.id), true)
    case None =>
      match InsertError(w, brand, modelName, manufacturer, fullName, fault)
      case None =>
        FindGpuAppended(rows, GpuRow(next, brand, modelName, manufacturer, fullName));
        GpuUpserted(rows + [GpuRow(next, brand, modelName, manufacturer, fullName)], next + 1, Some(next), false)
      case Some(errno) =>
        var truncated := Take(modelName, Classifier.CutModelLen);
        if errno == ErrDataTooLong && InsertError(w, brand, truncated, manufacturer, fullName, None).None? then
          FindGpuAppended(rows, GpuRow(next, brand, truncated, manufacturer, fullName));
          GpuUpserted(rows + [GpuRow(next, brand, truncated, manufacturer, fullName)], next + 1, Some(next), false)
        else
          GpuUpserted(rows, next, None, false)
  }

  /** The gpu table's invariant survives a get-or-create. */
  lemma UpsertGpuKeepsOk(rows: seq<GpuRow>, next: nat, w: GpuWidths, brand: string, modelName: string,
                         manufacturer: string, fullName: string, fault: Option<int>)
    requires GpusOk(rows, next)
    ensures var r := UpsertGpu(rows, next, w, brand, modelName, manufacturer, fullName, fault); GpusOk(r.rows, r.nextId)
  {
  }

  /**
   * On a hit the UPDATE is issued exactly when `NeedsUpdate` holds; the row
   * then takes all three incoming values at once if the UPDATE succeeds and
   * stays as it was if it fails. Every other row is untouched, and the
   * stored id is returned either way.
   */
  lemma GpuHitAllOrNothing(rows: seq<GpuRow>, next: nat, w: GpuWidths, brand: string, modelName: string,
                           manufacturer: string, fullName: string, fault: Option<int>)
    requires FindGpu(rows, fullName).Some?
    ensures var i := FindGpu(rows, fullName).value;
      var r := UpsertGpu(rows, next, w, brand, modelName, manufacturer, fullName, fault);
      && r.id == Some(rows[i].id)
      && r.updateIssued == NeedsUpdate(rows[i], brand, modelName, manufacturer)
      && (forall j :: 0 <= j < |rows| && j != i ==> r.rows[j] == rows[j])
      && (r.rows[i] == Overwritten(rows[i], brand, modelName, manufacturer) || r.rows[i] == rows[i])
      && (r.rows[i] != rows[i] <==>
            NeedsUpdate(rows[i], brand, modelName, manufacturer)
            && UpdateError(w, brand, modelName, manufacturer, fault).None?
            && Overwritten(rows[i], brand, modelName, manufacturer) != rows[i])
  {
  }

  /**
   * On a miss, one row is inserted when the INSERT succeeds; after an
   * ER_DATA_TOO_LONG the insert is retried once with the model cut to 99
   * characters; any other error, or a failed retry, inserts nothing and
   * returns None.
   */
  lemma GpuMissRetryOnce(rows: seq<GpuRow>, next: nat, w: GpuWidths, brand: string, modelName: string,
                         manufacturer: string, fullName: string, fault: Option<int>)
    requires FindGpu(rows, fullName).None?
    ensures var r := UpsertGpu(rows, next, w, brand, modelName, manufacturer, fullName, fault);
      var first := InsertError(w, brand, modelName, manufacturer, fullName, fault);
      var cut := Take(modelName, Classifier.CutModelLen);
      && (first.None? ==> r.id == Some(next) && r.rows == rows + [GpuRow(next, brand, modelName, manufacturer, fullName)])
      && (first.Some? && first.value == ErrDataTooLong && InsertError(w, brand, cut, manufacturer, fullName, None).None? ==>
            r.id == Some(next) && r.rows == rows + [GpuRow(next, brand, cut, manufacturer, fullName)])
      && (r.id.None? <==>
            first.Some? && (first.value != ErrDataTooLong || InsertError(w, brand, cut, manufacturer, fullName, None).Some?))
  {
  }

  /**
   * Calling `get_or_create_gpu` a second time with the same arguments, with
   * no server fault, returns the same id and leaves the table as it was; it
   * issues no UPDATE when the first call left the row holding the given
   * values.
   */
  lemma {:induction false} GpuRepeat(rows: seq<GpuRow>, next: nat, w: GpuWidths, brand: string, modelName: string,
                   manufacturer: string, fullName: string)
    ensures var r1 := UpsertGpu(rows, next, w, brand, modelName, manufacturer, fullName, None);
      var r2 := UpsertGpu(r1.rows, r1.nextId, w, brand, modelName, manufacturer, fullName, None);
      r1.id.Some? ==>
        && r2.id == r1.id && r2.rows == r1.rows && r2.nextId == r1.nextId
        && (var k := FindGpu(r1.rows, fullName).value;
            r1.rows[k].brand == brand && r1.rows[k].modelName == modelName && r1.rows[k].manufacturer == manufacturer
            ==> !r2.updateIssued)
  {
    var r1 := UpsertGpu(rows, next, w, brand, modelName, manufacturer, fullName, None);
    if r1.id.Some? {
      var k := FindGpu(r1.rows, fullName).value;
      var stored := r1.rows[k];
      match FindGpu(rows, fullName)
      case Some(i) =>
        FindGpuSameKeys(rows, r1.rows, fullName);
        assert k == i;
        if stored != rows[i] {
          assert stored == Overwritten(rows[i], brand, modelName, manufacturer);
        }
      case None =>
        assert k == |rows|;
        if stored.modelName != modelName {
          // only the retry stores a cut model, and the full one does not fit
          assert InsertError(w, brand, modelName, manufacturer, fullName, None) == Some(ErrDataTooLong);
          assert |modelName| > w.modelName;
        }
    }
  }

  /**
   * The stored manufacturer can regress to "Unknown": a changed model alone
   * triggers the UPDATE, which writes all three incoming fields.
   */
  lemma ManufacturerCanRegress(rows: seq<GpuRow>, w: GpuWidths)
    requires rows == [GpuRow(1, "ASUS", "GeForce RTX 4070", "NVIDIA", "ASUS GeForce RTX 4070")]
    requires w == GpuWidths(100, 100, 100, 255)
    ensures var r := UpsertGpu(rows, 2, w, "ASUS", "GeForce RTX 4070 Ti", Classifier.Unknown, "ASUS GeForce RTX 4070", None);
      r.rows[0].manufacturer == Classifier.Unknown
  {
    assert FindGpu(rows, "ASUS GeForce RTX 4070") == Some(0);
  }

  /**
   * A 100-character model, which the cap lets through, in a model_name
   * column 99 wide: the first call inserts the 99-character cut on the
   * retry, and every repeat then sees a different model, issues the UPDATE,
   * fails with 1406 again and leaves the table as it was.
   */
  lemma CutModelUpdatedForever(rows: seq<GpuRow>, next: nat, brand: string, modelName: string,
                               manufacturer: string, fullName: string)
    requires FindGpu(rows, fullName).None?
    requires |modelName| == Classifier.MaxModelLen
    requires |brand| <= 100 && |manufacturer| <= 100 && |fullName| <= 255
    ensures var w := GpuWidths(100, Classifier.CutModelLen, 100, 255);
      var r1 := UpsertGpu(rows, next, w, brand, modelName, manufacturer, fullName, None);
      var r2 := UpsertGpu(r1.rows, r1.nextId, w, brand, modelName, manufacturer, fullName, None);
      && r1.id == Some(next) && r1.rows[|rows|].modelName == modelName[..Classifier.CutModelLen]
      && r2.id == r1.id && r2.updateIssued && r2.rows == r1.rows && r2.nextId == r1.nextId
  {
    var w := GpuWidths(100, Classifier.CutModelLen, 100, 255);
    var cut := Take(modelName, Classifier.CutModelLen);
    var row := GpuRow(next, brand, cut, manufacturer, fullName);
    assert InsertError(w, brand, modelName, manufacturer, fullName, None) == Some(ErrDataTooLong);
    assert InsertError(w, brand, cut, manufacturer, fullName, None).None?;
    FindGpuAppended(rows, row);
    assert |cut| != |modelName|;
    assert NeedsUpdate((rows + [row])[|rows|], brand, modelName, manufacturer);
  }

  /**
   * An incoming "Unknown" manufacturer leaves the stored one in place when
   * the model is unchanged and the brand is unchanged or "Unknown".
   */
  lemma UnknownManufacturerKept(rows: seq<GpuRow>, next: nat, w: GpuWidths, brand: string, modelName: string,
                                fullName: string, fault: Option<int>)
    requires FindGpu(rows, fullName).Some?
    requires var i := FindGpu(rows, fullName).value;
      rows[i].modelName == modelName && (rows[i].brand == brand || brand == Classifier.Unknown)
    ensures var r := UpsertGpu(rows, next, w, brand, modelName, Classifier.Unknown, fullName, fault);
      r.rows == rows && !r.updateIssued
  {
  }

  // ---------------------------------------------------------------------
  // log_price_history
  // ---------------------------------------------------------------------

  /** `log_price_history`: appends one observation with a fresh id; earlier rows are kept. */
  function AppendPrice(rows: seq<PriceRow>, next: nat, productId: nat, price: string, stockStatus: string): (r: Upserted<PriceRow>)
    ensures |r.rows| == |rows| + 1 && rows <= r.rows
    ensures r.id == r.rows[|rows|].id
    ensures r.rows[|rows|].productId == productId && r.rows[|rows|].price == price
    ensures r.rows[|rows|].stockStatus == stockStatus
  {
    Upserted(rows + [PriceRow(next, productId, price, stockStatus)], next + 1, next)
  }

  /** The history table's invariant survives an append, whose id exceeds every earlier one. */
  lemma AppendPriceKeepsOk(rows: seq<PriceRow>, next: nat, productId: nat, price: string, stockStatus: string)
    requires PricesOk(rows, next)
    ensures var r := AppendPrice(rows, next, productId, price, stockStatus);
      PricesOk(r.rows, r.nextId) && forall j :: 0 <= j < |rows| ==> rows[j].id < r.id
  {
  }

  /** Logging the same observation twice keeps both, as two rows in call order. */
  lemma PriceDuplicatesKept(rows: seq<PriceRow>, next: nat, productId: nat, price: string, stockStatus: string)
    requires PricesOk(rows, next)
    ensures var r1 := AppendPrice(rows, next, productId, price, stockStatus);
      var r2 := AppendPrice(r1.rows, r1.nextId, productId, price, stockStatus);
      && |r2.rows| == |rows| + 2 && rows <= r2.rows
      && r2.rows[|rows|].id < r2.rows[|rows| + 1].id
      && r2.rows[|rows|].(id := 0) == r2.rows[|rows| + 1].(id := 0) == PriceRow(0, productId, price, stockStatus)
  {
  }

  // ---------------------------------------------------------------------
  // The whole database
  // ---------------------------------------------------------------------

  datatype Db = Db(
    stores: seq<StoreRow>, nextStoreId: nat,
    gpus: seq<GpuRow>, nextGpuId: nat,
    products: seq<ProductRow>, nextProductId: nat,
    history: seq<PriceRow>, nextHistoryId: nat)

  const EmptyDb: Db := Db([], 1, [], 1, [], 1, [], 1)

  predicate DbOk(db: Db) {
    && StoresOk(db.stores, db.nextStoreId)
    && GpusOk(db.gpus, db.nextGpuId)
    && ProductsOk(db.products, db.nextProductId)
    && PricesOk(db.history, db.nextHistoryId)
  }

  predicate HasStore(rows: seq<StoreRow>, id: nat) {
    exists k :: 0 <= k < |rows| && rows[k].id == id
  }

  predicate HasGpu(rows: seq<GpuRow>, id: nat) {
    exists k :: 0 <= k < |rows| && rows[k].id == id
  }

  predicate HasProduct(rows: seq<ProductRow>, id: nat) {
    exists k :: 0 <= k < |rows| && rows[k].id == id
  }

  /** Every product names an existing store and gpu; every observation an existing product. */
  predicate Linked(db: Db) {
    && (forall i :: 0 <= i < |db.products| ==> HasStore(db.stores, db.products[i].storeId))
    && (forall i :: 0 <= i < |db.products| ==> HasGpu(db.gpus, db.products[i].gpuId))
    && (forall i :: 0 <= i < |db.history| ==> HasProduct(db.products, db.history[i].productId))
  }
}
