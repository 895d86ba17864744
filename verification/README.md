# Micro Center GPU price scraper — a Dafny model of its ingestion core

The scraper (`scraper-app/scraper.py`) visits the retailer's GPU search
results for four stores, page by page. It turns every product container on
a page into at most one price observation. To do so it reconciles the container
against four MySQL tables: `stores`, `gpus`, `products` and `price_history`.
This project models that core and proves what it promises:

- **Classifier** (`classifier.dfy`, on `text.dfy`): `parse_gpu_details` as a
  pure function. It covers the ordered manufacturer search, the ordered
  family-keyword search with first-3/first-4 token truncation, the long-name
  fallback (brand, then manufacturer, removed; first four tokens) and the
  final length cap. Strings are `seq<char>`; case mapping and whitespace
  are ASCII.
- **Tables** (`tables.dfy`): the four tables as sequences of rows in
  insertion order, each with its own auto-increment counter. The effect of
  each get-or-create statement pair is a pure function, and each table's
  invariant is a predicate: ids positive, below the counter and increasing;
  natural key unique. The gpus table carries declared column widths, so an
  INSERT or UPDATE can fail with ER_DATA_TOO_LONG (1406). A `fault`
  parameter stands for any other server error on the first write statement
  of a call.
- **Reconciler** (`reconciler.dfy`): class `Database` holds the four tables
  and counters as fields. Its methods `GetOrCreateStore`, `GetOrCreateGpu`,
  `GetOrCreateProduct` and `LogPriceHistory` update them in place. Each is
  proved to leave the tables as the matching Tables function says, to touch
  no other table, and to keep every table invariant.
- **Page** (`page.dfy`): a product container as an abstract record of the
  elements the scraper reads. It covers extraction with the skip rules, the
  stock-status precedence and the image url, and the container loop of
  `run_scraper`. That loop is a method over the live database, proved
  against a specification function. The count it returns is exactly the
  number of price rows appended. Referential integrity (every product names
  an existing store and gpu) survives a page.
- **Crawler** (`crawler.dfy`): one `run_scraper` call and the entry point's
  loops. The page loop for a store goes on to page n+1 only while page n
  logged at least 96 observations, with no bound on the number of pages.
  The outer loop visits the four stores in order.

The specification functions take the classifier as a parameter
(`Classifier.Classification`). The methods pass `Classifier.ParseGpuDetails`.

## Model

| member | source | states |
|---|---|---|
| Text.Lower | scraper-app/scraper.py:32 | `str.lower` on ASCII: same length, each letter A-Z mapped to a-z and nothing else changed |
| Text.Upper | scraper-app/scraper.py:256 | `str.upper` on ASCII: same length, each letter a-z mapped to A-Z and nothing else changed |
| Text.UpperIdempotent | scraper-app/scraper.py:256 | upper-casing an upper-cased string changes nothing |
| Text.Contains | scraper-app/scraper.py:257 | Python's `p in s`: true exactly when `p` occurs at some position of `s` |
| Text.Find | scraper-app/scraper.py:41 | `str.find`: the first index where the pattern occurs, and no earlier one; `None` exactly when it occurs nowhere |
| Text.Split | scraper-app/scraper.py:43 | `str.split()`: every token is non-empty and free of whitespace |
| Text.SplitWord | scraper-app/scraper.py:43 | a non-empty run without whitespace splits into itself alone |
| Text.SplitAroundSpace | scraper-app/scraper.py:43 | a whitespace character separates: `split(a + c + b)` is `split(a)` followed by `split(b)`; with `SplitWord` and the empty string this fixes every split |
| Text.SplitKeepsCharacters | scraper-app/scraper.py:43 | the tokens, put back together, are exactly the non-whitespace characters of the input, in order |
| Text.Join | scraper-app/scraper.py:45-47 | `" ".join`: empty for no parts; otherwise the parts' total length plus one separator between each two; `Text.SplitJoin` is its inverse |
| Text.SplitJoin | scraper-app/scraper.py:43-47 | joining non-empty space-free tokens with single spaces and splitting again gives back the tokens |
| Text.Take | scraper-app/scraper.py:45 | `xs[:n]`: a prefix of `xs` of length `min(n, len(xs))` |
| Text.Strip | scraper-app/scraper.py:239 | `str.strip()`: the result is a contiguous run of the input with only whitespace before and after it, and it neither starts nor ends with whitespace |
| Text.StripTrims | scraper-app/scraper.py:239 | any cut of a string into leading whitespace, a run not starting or ending with whitespace, and trailing whitespace yields exactly that run |
| Text.LStrip | scraper-app/scraper.py:239 | removes exactly the leading whitespace and keeps the rest in order |
| Text.RStrip | scraper-app/scraper.py:239 | removes exactly the trailing whitespace and keeps the rest in order |
| Text.RemoveAll | scraper-app/scraper.py:54 | `str.replace(p, '')`: never longer than its input; an empty pattern leaves the string unchanged |
| Text.RemoveAllAbsent | scraper-app/scraper.py:54 | removing a pattern that does not occur leaves the string unchanged |
| Text.RemoveAllAtFirst | scraper-app/scraper.py:54 | with a non-empty pattern first found at i, the text before i is kept, the occurrence dropped, and removal resumes right after it |
| Classifier.Mentions | scraper-app/scraper.py:32 | `w.lower() in full_name.lower()`: true exactly when the lower-cased word occurs at some position of the lower-cased name |
| Classifier.FirstMentioned | scraper-app/scraper.py:31-34 | the first word of the list the name mentions case-insensitively, no earlier word mentioned; `None` exactly when none is mentioned |
| Classifier.DetectManufacturer | scraper-app/scraper.py:24-34 | the manufacturer is NVIDIA, AMD or Intel, whichever is mentioned first in that order, and "Unknown" exactly when none is |
| Classifier.KeywordStart | scraper-app/scraper.py:41 | the index of the keyword's first case-insensitive occurrence in the name |
| Classifier.KeywordModel | scraper-app/scraper.py:41-47 | the model's tokens are the first 4 tokens of the suffix from the keyword on when "Ti" or "XT" is among them, else the first 3 |
| Classifier.FallbackModel | scraper-app/scraper.py:53-57 | the model's tokens are the first four of the remaining tokens |
| Classifier.UncappedModel | scraper-app/scraper.py:36-57 | the model before the cap: the name itself when no keyword matches and it has at most 100 characters; at most four tokens from the keyword branch or the long-name fallback |
| Classifier.CapLength | scraper-app/scraper.py:59-60 | at most 100 characters; a model of at most 100 kept as is; a longer one is cut to exactly its 99-character prefix |
| Classifier.ParseGpuDetails | scraper-app/scraper.py:20-62 | brand passed through unchanged, manufacturer as `DetectManufacturer`, model name at most 100 characters |
| Classifier.ParseKeywordModel | scraper-app/scraper.py:36-49 | when keyword k is the first family keyword mentioned, the model is the capped 3- or 4-token join of the suffix at its first occurrence |
| Classifier.ParseShortNameIsModel | scraper-app/scraper.py:53-60 | with no keyword mentioned and at most 100 characters, the model name is the full name itself |
| Classifier.ParseLongNameFallback | scraper-app/scraper.py:53-60 | with no keyword mentioned and more than 100 characters, the model is the first four tokens left after removing brand, then manufacturer, then capped |
| Classifier.ParseCutKeepsPrefix | scraper-app/scraper.py:59-60 | when the cap cuts, the model name is exactly the first 99 characters of the uncapped model |
| Classifier.HundredCharModelKept | scraper-app/scraper.py:53-60 | any 100-character name that no keyword matches is its own, 100-character, model name: the cap lets 100 characters through |
| Classifier.HundredXsMentionNoKeyword | scraper-app/scraper.py:38-39 | a name of 100 'x' characters mentions no family keyword, so such names exist |
| Classifier.ParseExample | scraper-app/scraper.py:36-49 | "NVIDIA GeForce RTX 5070 Ti Founders Edition 12GB" with brand "NVIDIA" gives brand NVIDIA, manufacturer NVIDIA, model "GeForce RTX 5070 Ti" |
| Tables.FindStore | scraper-app/scraper.py:85-87 | the first row with the given name and city, no earlier one; `None` exactly when there is none |
| Tables.FindGpu | scraper-app/scraper.py:98-104 | the first row with the given full name, no earlier one; `None` exactly when there is none |
| Tables.FindProduct | scraper-app/scraper.py:149-151 | the first row with the given SKU and store, no earlier one; `None` exactly when there is none |
| Tables.UpsertStore | scraper-app/scraper.py:84-95 | afterwards the store is found and its id returned; a hit changes nothing, whatever the state; a miss appends one row with the counter's id |
| Tables.UpsertStoreKeepsOk | scraper-app/scraper.py:84-95 | ids stay increasing and below the counter, and (name, city) stays unique |
| Tables.StoreRepeat | scraper-app/scraper.py:84-95 | a second get-or-create of the same (name, city), with any state, returns the same id and writes nothing |
| Tables.UpsertProduct | scraper-app/scraper.py:144-167 | afterwards the product is found and its id returned; a hit rewrites only url and image of that row, keeping store, gpu and SKU; a miss appends one row |
| Tables.UpsertProductKeepsOk | scraper-app/scraper.py:144-167 | ids stay increasing and below the counter, and (sku, store) stays unique |
| Tables.ProductRepeat | scraper-app/scraper.py:144-167 | two get-or-creates of one (sku, store) return one id; the row keeps the first gpu and takes the second url and image |
| Tables.UpsertGpu | scraper-app/scraper.py:97-142 | a returned id names a row holding the full name; `None` leaves the table as it was; a hit returns an id and adds no row; a miss adds at most one row and issues no UPDATE |
| Tables.UpsertGpuKeepsOk | scraper-app/scraper.py:97-142 | ids stay increasing and below the counter, and full_name stays unique |
| Tables.NeedsUpdate | scraper-app/scraper.py:108-110 | an UPDATE is needed exactly when writing the incoming values, each "Unknown" brand or manufacturer replaced by the stored one, would change the row |
| Tables.GpuHitAllOrNothing | scraper-app/scraper.py:106-123 | on a hit the UPDATE is issued exactly under the condition of lines 108-110; it writes all three fields or, when it fails, none; other rows untouched; the stored id returned |
| Tables.GpuMissRetryOnce | scraper-app/scraper.py:124-142 | on a miss: one row on success; after error 1406 one retry with the model cut to 99 characters; any other error or a failed retry adds nothing and returns None |
| Tables.GpuRepeat | scraper-app/scraper.py:97-142 | calling twice with the same arguments and no fault: when the first call yields an id, the second returns it, leaves table and counter as the first left them, and issues no UPDATE when the row holds the given values |
| Tables.CutModelUpdatedForever | scraper-app/scraper.py:108-142 | with a 99-wide model_name column, a 100-character model is inserted cut to 99 on the retry; a repeat then issues an UPDATE that fails and leaves the table as it was, so every repeat does the same |
| Tables.ManufacturerCanRegress | scraper-app/scraper.py:108-120 | a changed model alone triggers the UPDATE, which overwrites a stored "NVIDIA" with an incoming "Unknown" |
| Tables.UnknownManufacturerKept | scraper-app/scraper.py:108-110 | an incoming "Unknown" manufacturer keeps the stored one when the model is unchanged and the brand unchanged or "Unknown" |
| Tables.AppendPrice | scraper-app/scraper.py:169-174 | appends exactly one row with the product, price and stock status given; earlier rows are kept as a prefix |
| Tables.AppendPriceKeepsOk | scraper-app/scraper.py:169-174 | the new id exceeds every earlier one and ids stay below the counter |
| Tables.PriceDuplicatesKept | scraper-app/scraper.py:169-174 | logging the same observation twice keeps two equal rows, in call order, with increasing ids |
| Reconciler.Database.GetOrCreateStore | scraper-app/scraper.py:84-95 | the stores table and its counter become as `UpsertStore` says, the id is returned, other tables unchanged, invariants kept |
| Reconciler.Database.InsertGpu | scraper-app/scraper.py:125-132 | appends one gpu row with the counter's id and returns that id; nothing else changes |
| Reconciler.Database.GetOrCreateGpu | scraper-app/scraper.py:97-142 | the gpus table and its counter become as `UpsertGpu` says, its id is returned, other tables unchanged, invariants kept |
| Reconciler.Database.GetOrCreateProduct | scraper-app/scraper.py:144-167 | the products table and its counter become as `UpsertProduct` says, the id is returned, other tables unchanged, invariants kept |
| Reconciler.Database.LogPriceHistory | scraper-app/scraper.py:169-174 | the history table and its counter become as `AppendPrice` says, other tables unchanged, invariants kept |
| Page.SkuOf | scraper-app/scraper.py:244-245 | "N/A" without a SKU element; a SKU text without "SKU:" gives that text stripped |
| Page.SkuAfterLabel | scraper-app/scraper.py:245 | a SKU text of "SKU:" followed by a rest holding no further "SKU:" gives that rest, stripped |
| Page.SkuExample | scraper-app/scraper.py:245 | "SKU: 123456" gives "123456" |
| Page.StockStatus | scraper-app/scraper.py:249-258 | inventory span first, with whitespace runs collapsed; else the stock div stripped and upper-cased; else "SOLD OUT" exactly when the upper-cased text contains it, otherwise "UNKNOWN" |
| Page.ImageUrl | scraper-app/scraper.py:260-263 | "N/A" without an image; a non-empty `data-src` wins; otherwise `src`, which may be absent |
| Page.Extract | scraper-app/scraper.py:236-263 | skipped exactly when there is no name link or the name or SKU comes out "N/A"; otherwise every field of the item as the code derives it |
| Page.RecordItem | scraper-app/scraper.py:265-283 | stores untouched; nothing logged means products and history unchanged; a logged item appends one history row linked to the product with its SKU at the store |
| Page.GpuNoneLogsNothing | scraper-app/scraper.py:272 | when the gpu get-or-create yields no id, nothing is logged and the tables stay as they were |
| Page.ProcessItem | scraper-app/scraper.py:235-283 | a skipped container changes nothing; a logged one appends exactly one history row recording its extracted item |
| Page.ProcessAll | scraper-app/scraper.py:234-283 | the count never exceeds the containers processed, the history grows by exactly the count, earlier history is kept, stores untouched |
| Page.ProcessAllStep | scraper-app/scraper.py:234-283 | processing n containers is processing n-1, then the last, with the count raised by one exactly when that one logged |
| Page.AllSkippedWritesNothing | scraper-app/scraper.py:236-247 | a page whose every container is skipped writes nothing and counts 0 |
| Page.RecordItemKeepsLinked | scraper-app/scraper.py:265-283 | every product row names an existing store and gpu before and after an item |
| Page.ProcessAllKeepsLinked | scraper-app/scraper.py:234-283 | every product row names an existing store and gpu after a whole page |
| Page.GpuIdsKept | scraper-app/scraper.py:97-142 | a gpu get-or-create keeps the id of every stored row |
| Page.ProductIdsKept | scraper-app/scraper.py:144-167 | a product get-or-create keeps every stored id, store and gpu |
| Page.RecordOne | scraper-app/scraper.py:265-283 | the live tables become as `RecordItem` says, and the flag says whether a row was logged |
| Page.ProcessOne | scraper-app/scraper.py:235-283 | the live tables become as `ProcessItem` with `ParseGpuDetails` says |
| Page.ProcessPage | scraper-app/scraper.py:234-283 | the loop leaves the live tables as `ProcessAll` says and returns its count, so `items_scraped` is the number of history rows appended |
| Crawler.RunOnce | scraper-app/scraper.py:178-298 | no connection: nothing written, count 0; otherwise the store exists afterwards; a timed-out page counts 0; a loaded page counts at most its containers; history grows by the count |
| Crawler.Crawl | scraper-app/scraper.py:314-326 | every page's count but the last is at least 96, the last is below 96; history grows by the sum of the counts |
| Crawler.CrawlStep | scraper-app/scraper.py:319-324 | a page below 96 ends the crawl with its count; a full page is followed by the crawl from the next page |
| Crawler.ShortPageStops | scraper-app/scraper.py:321-322 | a page that cannot yield 96 (no connection, timed out, fewer than 96 containers) is the last one fetched |
| Crawler.ThreePages | scraper-app/scraper.py:314-326 | counts 96, 96, 40 mean exactly three pages are fetched |
| Crawler.RunScraper | scraper-app/scraper.py:178-298 | the live tables become as `RunOnce` says, and its count is returned |
| Crawler.CrawlStore | scraper-app/scraper.py:314-326 | the `while True` loop leaves the live tables as `Crawl` says and returns its page counts |
| Crawler.CrawlStores | scraper-app/scraper.py:311-329 | one count sequence per store, each ending with a page below 96 |
| Crawler.CrawlStoresStep | scraper-app/scraper.py:311-329 | crawling store i extends the first i stores' run by that store's crawl |
| Crawler.CrawlAll | scraper-app/scraper.py:311-329 | the loop over the four stores leaves the live tables as `CrawlStores` says and returns its counts |

## Notes on the code's behaviour

The model follows the code on each of these points.

- Two different model-name limits. The insert retry after error 1406 cuts the model name to 99 characters (line 136). The final cap in `parse_gpu_details` cuts only names longer than 100 (line 59), so a 100-character model is kept as is (`Classifier.HundredCharModelKept`).
- The manufacturer guard on lines 108-110 does not stop a regression. A changed model name alone triggers the UPDATE, and the UPDATE writes all three incoming values, an incoming "Unknown" manufacturer included (`Tables.ManufacturerCanRegress`). A stored manufacturer survives an incoming "Unknown" when the model is unchanged and the brand is unchanged or "Unknown" (`Tables.UnknownManufacturerKept`), or when the UPDATE fails (lines 119-122, `Tables.GpuHitAllOrNothing`).
- The 99-character cut on the insert retry does not settle the row. With a model_name column 99 wide, a 100-character model (which the cap lets through) is inserted as its 99-character prefix. Every later call with the same arguments then finds a stored model different from the incoming one (line 109), issues the UPDATE, fails with 1406 again (lines 119-122) and changes nothing (`Tables.CutModelUpdatedForever`). This is why `Tables.GpuRepeat` promises no UPDATE only when the row holds the given values.
- The page loop (lines 314-326) has no page bound. It stops only on a page that logs fewer than 96 observations (`Crawler.Crawl`).
- Nothing in `scraper.py` prevents two runs of the entry point from writing to the tables at the same time.

## Left out

- Browser automation and HTML parsing (lines 197-232) are replaced by their outcome. `Crawler.Visit` holds either a timed-out page or the page's containers, as `Page.Container` records.
- The connection (`get_db_connection`, lines 66-82) is the `DbDown` visit. Commit and rollback (lines 195, 288, 293) are not modelled: tables change as each statement runs.
- An unexpected exception outside the container loop (lines 291-293) rolls back yet still returns the count. This is not modelled. The gpus write errors are caught inside `get_or_create_gpu` (lines 121, 133-142) and are modelled there; no other exception inside the container loop (handler at lines 285-286) is modelled. The product and history statements always succeed in the model.
- Tables.UpsertGpu: the retry INSERT after error 1406 (lines 135-141) fails in the model only when a value is still too wide for its column. The code catches any exception there (line 140); a server error on the retry itself is not modelled, since the `fault` input applies to the first write only.
- Server errors are inputs, not computed. A fault on the first gpus write of each container comes in as `fault`, by position. Error 1406 is computed from declared column widths, so the server is taken to be in strict mode.
- Lookups compare keys exactly. MySQL compares them under each column's collation, which is typically case-insensitive and may also ignore trailing spaces (PAD SPACE collations). The table schema is not part of this model.
- The counters advance by exactly one per inserted row. MySQL's auto-increment gaps after failed inserts are not modelled.
- Python's Unicode case mapping and Unicode whitespace are not modelled. `Lower`, `Upper` and the whitespace test cover ASCII only.
- The `try/except` around the keyword branch (lines 40-51) cannot raise in the model, so its handler is not modelled.
- The search URL (lines 312, 317) is not modelled; page k's outcome is given directly. Pages past the given ones time out, which keeps the page loop finite without a bound the code lacks.
- `if not product_id` (line 280) never fires, since ids start at 1. Sleeps and prints have no effect on the tables.
- `scraper-app/app.py` (the query API) is not part of this model.
- Crawler.CrawlStore: the page-count facts (last count below 96, the others at least 96) are not repeated in its contract. They follow from `Crawler.Crawl`'s contract.
