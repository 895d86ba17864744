/**
 * The scraper's database as one mutable object: four tables and their
 * auto-increment counters. Each get-or-create method leaves the tables as
 * the matching function of module Tables says, and touches no other table.
 */
module Reconciler {
  import opened Wrappers
  import opened Text
  import opened Tables
  import Classifier

  class Database {
    var stores: seq<StoreRow>
    var nextStoreId: nat
    var gpus: seq<GpuRow>
    var nextGpuId: nat
    var products: seq<ProductRow>
    var nextProductId: nat
    var history: seq<PriceRow>
    var nextHistoryId: nat
    /** The declared widths of the gpus table's text columns. */
    const widths: GpuWidths

    /** The tables' contents as a value. */
    function Snapshot(): Db
      reads this
    {
      Db(stores, nextStoreId, gpus, nextGpuId, products, nextProductId, history, nextHistoryId)
    }

    predicate Valid()
      reads this
    {
      DbOk(Snapshot())
    }

    /** A freshly created schema: every table empty, every counter at 1. */
    constructor (widths: GpuWidths)
      ensures Valid() && Snapshot() == EmptyDb && this.widths == widths
    {
      stores, nextStoreId := [], 1;
      gpus, nextGpuId := [], 1;
      products, nextProductId := [], 1;
      history, nextHistoryId := [], 1;
      this.widths := widths;
    }

    /** `get_or_create_store`, scraper.py lines 84-95. */
    method GetOrCreateStore(name: string, city: string, state: string) returns (storeId: nat)
      requires Valid()
      modifies this
      ensures Valid()
      ensures var u := UpsertStore(old(stores), old(nextStoreId), name, city, state);
        && storeId == u.id
        && Snapshot() == old(Snapshot()).(stores := u.rows, nextStoreId := u.nextId)
    {
      UpsertStoreKeepsOk(stores, nextStoreId, name, city, state);
      match FindStore(stores, name, city)
      case Some(i) =>
        storeId := stores[i].id;
      case None =>
        storeId := nextStoreId;
        stores := stores + [StoreRow(storeId, name, city, state)];
        nextStoreId := nextStoreId + 1;
    }

    /** The INSERT into gpus, taking the next id. */
    method InsertGpu(brand: string, modelName: string, manufacturer: string, fullName: string)
      returns (gpuId: Option<nat>)
      modifies this
      ensures gpuId == Some(old(nextGpuId)) && nextGpuId == old(nextGpuId) + 1
      ensures gpus == old(gpus) + [GpuRow(old(nextGpuId), brand, modelName, manufacturer, fullName)]
      ensures stores == old(stores) && nextStoreId == old(nextStoreId)
      ensures products == old(products) && nextProductId == old(nextProductId)
      ensures history == old(history) && nextHistoryId == old(nextHistoryId)
    {
      gpuId := Some(nextGpuId);
      gpus := gpus + [GpuRow(nextGpuId, brand, modelName, manufacturer, fullName)];
      nextGpuId := nextGpuId + 1;
    }

    /**
     * `get_or_create_gpu`, scraper.py lines 97-142. `fault` is the server
     * error, if any, that the call's first write statement raises for a
     * reason outside the model.
     */
    method GetOrCreateGpu(brand: string, modelName: string, manufacturer: string, fullName: string,
                          fault: Option<int>) returns (gpuId: Option<nat>)
      requires Valid()
      modifies this
      ensures Valid()
      ensures var u := UpsertGpu(old(gpus), old(nextGpuId), widths, brand, modelName, manufacturer, fullName, fault);
        && gpuId == u.id
        && Snapshot() == old(Snapshot()).(gpus := u.rows, nextGpuId := u.nextId)
    {
      UpsertGpuKeepsOk(gpus, nextGpuId, widths, brand, modelName, manufacturer, fullName, fault);
      match FindGpu(gpus, fullName)
      case Some(i) =>
        var stored := gpus[i];
        if NeedsUpdate(stored, brand, modelName, manufacturer) {
          var err := UpdateError(widths, brand, modelName, manufacturer, fault);
          if err.None? {
            gpus := gpus[i := Overwritten(stored, brand, modelName, manufacturer)];
          }
        }
        gpuId := Some(stored.id);
      case None =>
        var err := InsertError(widths, brand, modelName, manufacturer, fullName, fault);
        if err.None? {
          gpuId := InsertGpu(brand, modelName, manufacturer, fullName);
        } else if err.value == ErrDataTooLong {
          var truncated := Take(modelName, Classifier.CutModelLen);
          var retryErr := InsertError(widths, brand, truncated, manufacturer, fullName, None);
          if retryErr.None? {
            gpuId := InsertGpu(brand, truncated, manufacturer, fullName);
          } else {
            gpuId := None;
          }
        } else {
          gpuId := None;
        }
    }

    /** `get_or_create_product`, scraper.py lines 144-167. */
    method GetOrCreateProduct(storeId: nat, gpuId: nat, sku: string, productUrl: string, imageUrl: Option<string>)
      returns (productId: nat)
      requires Valid()
      modifies this
      ensures Valid()
      ensures var u := UpsertProduct(old(products), old(nextProductId), storeId, gpuId, sku, productUrl, imageUrl);
        && productId == u.id
        && Snapshot() == old(Snapshot()).(products := u.rows, nextProductId := u.nextId)
    {
      UpsertProductKeepsOk(products, nextProductId, storeId, gpuId, sku, productUrl, imageUrl);
      match FindProduct(products, sku, storeId)
      case Some(i) =>
        products := products[i := products[i].(productUrl := productUrl, imageUrl := imageUrl)];
        productId := products[i].id;
      case None =>
        productId := nextProductId;
        products := products + [ProductRow(productId, storeId, gpuId, sku, productUrl, imageUrl)];
        nextProductId := nextProductId + 1;
    }

    /** `log_price_history`, scraper.py lines 169-174. */
    method LogPriceHistory(productId: nat, price: string, stockStatus: string)
      requires Valid()
      modifies this
      ensures Valid()
      ensures var u := AppendPrice(old(history), old(nextHistoryId), productId, price, stockStatus);
        Snapshot() == old(Snapshot()).(history := u.rows, nextHistoryId := u.nextId)
    {
      AppendPriceKeepsOk(history, nextHistoryId, productId, price, stockStatus);
      history := history + [PriceRow(nextHistoryId, productId, price, stockStatus)];
      nextHistoryId := nextHistoryId + 1;
    }
  }
}
