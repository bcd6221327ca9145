/** ml/loader/image_process.py: the crawler-based top-up. Each deficit-map
    entry becomes one crawl job into `<root>/<product>` with an index offset
    computed from the quota and the amount; every outcome, success or
    exception, comes back as a status string. */
module ImageProcess {
  import opened Collections
  import opened Text
  import opened DataLoader
  import opened Provider

  /** `file_idx_offset = limit - amount + 1`, the index offset handed to the crawler. */
  function FileIdxOffset(limit: int, amount: int): int {
    limit - amount + 1
  }

  function SuccessMessage(product: string, amount: int): string {
    "✅ " + product + ": " + IntToString(amount) + " изображений"
  }

  function ErrorMessage(product: string, error: string): string {
    "❌ " + product + ": ошибка - " + error
  }

  /** The crawl `download_product` issues: keyword `product`, at most
      `amount` files, stored under `folder/product`. */
  function CrawlRequest(product: string, amount: int, folder: string, limit: int): Request {
    CrawlCall(product, amount, JoinPath(folder, product), FileIdxOffset(limit, amount))
  }

  /** The string `download_product` returns when the crawler raises exactly
      for the keywords in `failures`. */
  function ProductResult(product: string, amount: int, failures: map<string, string>): string {
    if product in failures then ErrorMessage(product, failures[product]) else SuccessMessage(product, amount)
  }

  /** For the amount that the quota calculator assigns to p, the offset is
      one past the n entries it counted (1 for a missing directory), and
      offset + amount - 1 equals the quota. How the crawler turns the offset
      into file names is not part of this model. */
  lemma DeficitOffsetFollowsCount(products: seq<string>, limit: int, inventory: map<string, nat>, p: string, amount: int)
    requires p in products
    requires Get(AbsentList(products, limit, inventory), p) == Some(amount)
    ensures FileIdxOffset(limit, amount) == (if p in inventory then inventory[p] else 0) + 1
    ensures FileIdxOffset(limit, amount) + amount - 1 == limit
  {
    AbsentListCases(products, limit, inventory, p);
  }

  /** Every result names its product, and it is an error report exactly when
      the crawl raised, carrying the exception text; a success reports the
      requested amount, whatever the crawler delivered. */
  lemma ProductResultStatus(product: string, amount: int, failures: map<string, string>)
    ensures var r := ProductResult(product, amount, failures);
      StartsWith(r, "❌ " + product + ": ") <==> product in failures
    ensures var r := ProductResult(product, amount, failures);
      product in failures ==> EndsWith(r, failures[product])
    ensures var r := ProductResult(product, amount, failures);
      product !in failures ==> StartsWith(r, "✅ " + product + ": " + IntToString(amount))
  {
    var r := ProductResult(product, amount, failures);
    if product !in failures {
      var head := "❌ " + product + ": ";
      assert r[0] == '✅';
      assert |head| <= |r| ==> r[..|head|][0] != head[0];
    }
  }

  /** `download_product(product, amount, folder, limit)`: the exception of
      any crawl is caught and turned into the error string. */
  method DownloadProduct(product: string, amount: int, folder: string, limit: int, disk: Disk, provider: ImageProvider)
    returns (result: string)
    modifies disk, provider
    ensures disk.dirs == old(disk.dirs) + {JoinPath(folder, product)}
    ensures provider.requests == old(provider.requests) + [CrawlRequest(product, amount, folder, limit)]
    ensures result == ProductResult(product, amount, provider.failures)
  {
    var productFolder := JoinPath(folder, product);
    disk.MakeDirs(productFolder);
    var error := provider.Crawl(product, amount, productFolder, limit - amount + 1);
    match error
    case Some(e) => result := ErrorMessage(product, e);
    case None => result := SuccessMessage(product, amount);
  }

  /** The limit `download_data_to_folder` passes on. */
  function LimitFor(folderName: string, testLimit: int, trainLimit: int): int {
    if folderName == "test_images" then testLimit
    else if folderName == "train_images" then trainLimit
    else 0
  }

  /** Only the two known folder names read a configured limit; the test and
      train limits never mix, and every other name gets 0. */
  lemma LimitForCases(folderName: string, testLimit: int, trainLimit: int)
    ensures folderName == "test_images" ==> LimitFor(folderName, testLimit, trainLimit) == testLimit
    ensures folderName == "train_images" ==> LimitFor(folderName, testLimit, trainLimit) == trainLimit
    ensures folderName != "test_images" && folderName != "train_images" ==> LimitFor(folderName, testLimit, trainLimit) == 0
  {
  }

  /** The crawls of one batch, one per entry in dict order. */
  function BatchRequests(absent: Dict<string, int>, rootDir: string, limit: int): seq<Request>
  {
    Map(absent, (e: (string, int)) => CrawlRequest(e.0, e.1, rootDir, limit))
  }

  /** The results of one batch, one per entry. */
  function BatchResults(absent: Dict<string, int>, failures: map<string, string>): seq<string>
  {
    Map(absent, (e: (string, int)) => ProductResult(e.0, e.1, failures))
  }

  /** The product folders one batch creates. */
  function BatchDirs(absent: Dict<string, int>, rootDir: string): set<string>
  {
    if absent == [] then {}
    else BatchDirs(absent[..|absent| - 1], rootDir) + {JoinPath(rootDir, absent[|absent| - 1].0)}
  }

  /** The batch creates exactly the folders of its products. */
  lemma {:induction false} BatchDirsSpec(absent: Dict<string, int>, rootDir: string)
    ensures forall d :: d in BatchDirs(absent, rootDir) <==> exists p :: p in Keys(absent) && d == JoinPath(rootDir, p)
  {
    if absent != [] {
      var init := absent[..|absent| - 1];
      BatchDirsSpec(init, rootDir);
      assert Keys(absent) == Keys(init) + [absent[|absent| - 1].0];
    }
  }

  /** Each entry is crawled with the offset computed from its own amount, so
      offset + amount - 1 equals `limit` for every crawl, and a failure of one product
      does not keep any other from being crawled and reported. */
  lemma BatchIsPerEntry(absent: Dict<string, int>, rootDir: string, limit: int, failures: map<string, string>, i: nat)
    requires i < |absent|
    ensures BatchRequests(absent, rootDir, limit)[i]
      == CrawlCall(absent[i].0, absent[i].1, JoinPath(rootDir, absent[i].0), FileIdxOffset(limit, absent[i].1))
    ensures FileIdxOffset(limit, absent[i].1) + absent[i].1 - 1 == limit
    ensures StartsWith(BatchResults(absent, failures)[i], "❌ " + absent[i].0 + ": ") <==> absent[i].0 in failures
  {
    MapAt(absent, (e: (string, int)) => CrawlRequest(e.0, e.1, rootDir, limit), i);
    MapAt(absent, (e: (string, int)) => ProductResult(e.0, e.1, failures), i);
    ProductResultStatus(absent[i].0, absent[i].1, failures);
  }

  /** One more job of a batch, stated on the provider's and the disk's
      whole history (`issued` and `made` are what they held before the
      batch). */
  lemma BatchStep(absent: Dict<string, int>, rootDir: string, limit: int, failures: map<string, string>, k: nat,
                  issued: seq<Request>, made: set<string>)
    requires k < |absent|
    ensures made + BatchDirs(absent[..k + 1], rootDir) == made + BatchDirs(absent[..k], rootDir) + {JoinPath(rootDir, absent[k].0)}
    ensures issued + BatchRequests(absent[..k + 1], rootDir, limit)
      == issued + BatchRequests(absent[..k], rootDir, limit) + [CrawlRequest(absent[k].0, absent[k].1, rootDir, limit)]
    ensures BatchResults(absent[..k + 1], failures)
      == BatchResults(absent[..k], failures) + [ProductResult(absent[k].0, absent[k].1, failures)]
  {
    assert absent[..k + 1][..k] == absent[..k];
    MapStep(absent, (e: (string, int)) => CrawlRequest(e.0, e.1, rootDir, limit), k);
    MapStep(absent, (e: (string, int)) => ProductResult(e.0, e.1, failures), k);
  }

  /** `download_data_to_folder(absent_dict, folder_name)`: creates
      `<module dir>/folder_name`, picks the limit by folder name, submits one
      job per entry and collects every result. */
  method DownloadDataToFolder(absentDict: Dict<string, int>, folderName: string, moduleDir: string,
                              testLimit: int, trainLimit: int, disk: Disk, provider: ImageProvider)
    returns (results: seq<string>)
    modifies disk, provider
    ensures var rootDir := JoinPath(moduleDir, folderName);
      disk.dirs == old(disk.dirs) + {rootDir} + BatchDirs(absentDict, rootDir)
    ensures provider.requests == old(provider.requests)
      + BatchRequests(absentDict, JoinPath(moduleDir, folderName), LimitFor(folderName, testLimit, trainLimit))
    ensures results == BatchResults(absentDict, provider.failures)
  {
    var rootDir := JoinPath(moduleDir, folderName);
    disk.MakeDirs(rootDir);
    var limit := 0;
    if folderName == "test_images" {
      limit := testLimit;
    }
    if folderName == "train_images" {
      limit := trainLimit;
    }
    results := DownloadBatch(absentDict, rootDir, limit, disk, provider);
  }

  /** The jobs of one batch, submitted in dict order; every result is
      collected. */
  method DownloadBatch(absentDict: Dict<string, int>, rootDir: string, limit: int, disk: Disk, provider: ImageProvider)
    returns (results: seq<string>)
    modifies disk, provider
    ensures disk.dirs == old(disk.dirs) + BatchDirs(absentDict, rootDir)
    ensures provider.requests == old(provider.requests) + BatchRequests(absentDict, rootDir, limit)
    ensures results == BatchResults(absentDict, provider.failures)
  {
    results := [];
    for k := 0 to |absentDict|
      invariant disk.dirs == old(disk.dirs) + BatchDirs(absentDict[..k], rootDir)
      invariant provider.requests == old(provider.requests) + BatchRequests(absentDict[..k], rootDir, limit)
      invariant results == BatchResults(absentDict[..k], provider.failures)
    {
      var (product, amount) := absentDict[k];
      var result := DownloadProduct(product, amount, rootDir, limit, disk, provider);
      results := results + [result];
      BatchStep(absentDict, rootDir, limit, provider.failures, k, old(provider.requests), old(disk.dirs));
    }
    assert absentDict[..|absentDict|] == absentDict;
  }
}
