/** ml/dataset_init.py: seeding `ml/food_dataset.db` from the image folders.
    Directory listings and readable files are inputs: `listing` maps each
    directory path that exists to its entries in `os.listdir` order, and
    `contents` maps each file path that can be opened to its bytes. */
module DatasetInit {
  import opened Collections
  import opened Text
  import opened DataLoader
  import opened Provider
  import opened DatasetCollector

  /** `f.lower().endswith(('.jpg', '.jpeg', '.png', '.bmp'))`. */
  predicate HasImageExtension(name: string) {
    var lower := Lower(name);
    EndsWith(lower, ".jpg") || EndsWith(lower, ".jpeg") || EndsWith(lower, ".png") || EndsWith(lower, ".bmp")
  }

  /** The comprehension of `create_image_dict_by_folder`. */
  function ImageFiles(names: seq<string>): seq<string> {
    Filter(names, HasImageExtension)
  }

  /** The comprehension keeps exactly the image names, in listing order: it
      distributes over concatenation, so no name moves. */
  lemma ImageFilesSpec(a: seq<string>, b: seq<string>)
    ensures forall f :: f in ImageFiles(a) <==> f in a && HasImageExtension(f)
    ensures ImageFiles(a + b) == ImageFiles(a) + ImageFiles(b)
  {
    FilterComplete(a, HasImageExtension);
    FilterConcat(a, b, HasImageExtension);
  }

  type Listing = map<string, seq<string>>

  function NotFound(path: string): string {
    "[Errno 2] No such file or directory: '" + path + "'"
  }

  /** The dict `create_image_dict_by_folder` builds when every category
      directory can be listed. */
  function ImageDict(keys: seq<string>, folderName: string, listing: Listing): Dict<string, seq<string>>
    requires forall k :: k in keys ==> JoinPath(folderName, k) in listing
  {
    if keys == [] then []
    else
      var k := keys[|keys| - 1];
      Put(ImageDict(keys[..|keys| - 1], folderName, listing), k, ImageFiles(listing[JoinPath(folderName, k)]))
  }

  /** One entry per category, empty lists included, holding that category's
      image names. */
  lemma {:induction false} ImageDictSpec(keys: seq<string>, folderName: string, listing: Listing)
    requires forall k :: k in keys ==> JoinPath(folderName, k) in listing
    ensures IsDict(ImageDict(keys, folderName, listing))
    ensures forall k :: HasKey(ImageDict(keys, folderName, listing), k) <==> k in keys
    ensures forall k :: k in keys ==>
      Get(ImageDict(keys, folderName, listing), k) == Some(ImageFiles(listing[JoinPath(folderName, k)]))
  {
    if keys != [] {
      var init := keys[..|keys| - 1];
      var k := keys[|keys| - 1];
      assert forall q :: q in keys <==> q in init || q == k;
      ImageDictSpec(init, folderName, listing);
      PutKeeps(ImageDict(init, folderName, listing), k, ImageFiles(listing[JoinPath(folderName, k)]));
    }
  }

  /** One more category listed. */
  lemma ImageDictStep(keys: seq<string>, i: nat, folderName: string, listing: Listing)
    requires i < |keys|
    requires forall k :: k in keys[..i] ==> JoinPath(folderName, k) in listing
    requires JoinPath(folderName, keys[i]) in listing
    ensures forall k :: k in keys[..i + 1] ==> JoinPath(folderName, k) in listing
    ensures ImageDict(keys[..i + 1], folderName, listing)
      == Put(ImageDict(keys[..i], folderName, listing), keys[i], ImageFiles(listing[JoinPath(folderName, keys[i])]))
  {
    assert keys[..i + 1] == keys[..i] + [keys[i]];
    assert keys[..i + 1][..i] == keys[..i];
  }

  /** `create_image_dict_by_folder(folder_name)` over the categories of
      `product_lists`; `os.listdir` of a missing directory raises. */
  method CreateImageDictByFolder(folderName: string, productLists: PyList, listing: Listing)
    returns (imageDict: Dict<string, seq<string>>, error: Option<string>)
    ensures error.None? <==> forall k :: k in productLists.items ==> JoinPath(folderName, k) in listing
    ensures error.None? ==> imageDict == ImageDict(productLists.items, folderName, listing)
  {
    var keys := productLists.items;
    imageDict := [];
    for i := 0 to |keys|
      invariant forall k :: k in keys[..i] ==> JoinPath(folderName, k) in listing
      invariant imageDict == ImageDict(keys[..i], folderName, listing)
    {
      var key := keys[i];
      var categoryPath := JoinPath(folderName, key);
      if categoryPath !in listing {
        return imageDict, Some(NotFound(categoryPath));
      }
      ImageDictStep(keys, i, folderName, listing);
      var imageFiles := ImageFiles(listing[categoryPath]);
      imageDict := Put(imageDict, key, imageFiles);
    }
    assert keys[..|keys|] == keys;
    error := None;
  }

  /** The number of leading files of a category that can be opened; the
      first one that cannot raises and abandons the rest. */
  function ReadablePrefix(classFolder: string, files: seq<string>, contents: map<string, seq<bv8>>): (n: nat)
    ensures n <= |files|
    ensures forall j :: 0 <= j < n ==> JoinPath(classFolder, files[j]) in contents
    ensures n < |files| ==> JoinPath(classFolder, files[n]) !in contents
  {
    if files == [] || JoinPath(classFolder, files[0]) !in contents then 0
    else
      var m := ReadablePrefix(classFolder, files[1..], contents);
      assert forall j :: 1 <= j <= m ==> files[j] == files[1..][j - 1];
      1 + m
  }

  /** The (path, category) pairs of the files of one category. */
  function FilePaths(classFolder: string, key: string, files: seq<string>): seq<(string, string)>
  {
    Map(files, (f: string) => (JoinPath(classFolder, f), key))
  }

  /** The files of one category that get saved, with that category. */
  function KeyPaths(imagesFolder: string, key: string, files: seq<string>, contents: map<string, seq<bv8>>): seq<(string, string)>
  {
    var classFolder := JoinPath(imagesFolder, key);
    FilePaths(classFolder, key, files[..ReadablePrefix(classFolder, files, contents)])
  }

  /** The files `saving_dict_to_db` saves, category by category. */
  function SavedPaths(d: Dict<string, seq<string>>, imagesFolder: string, contents: map<string, seq<bv8>>): seq<(string, string)>
  {
    FlatMap(d, (e: (string, seq<string>)) => KeyPaths(imagesFolder, e.0, e.1, contents))
  }

  /** The loop over a category is cut short by an exception. */
  predicate Abandoned(imagesFolder: string, key: string, files: seq<string>, contents: map<string, seq<bv8>>)
  {
    ReadablePrefix(JoinPath(imagesFolder, key), files, contents) < |files|
  }

  /** The categories whose loop was cut short by an exception. */
  function Skipped(d: Dict<string, seq<string>>, imagesFolder: string, contents: map<string, seq<bv8>>): nat
  {
    CountIf(d, (e: (string, seq<string>)) => Abandoned(imagesFolder, e.0, e.1, contents))
  }

  /** The rows saved for a sequence of (path, category) pairs, with user 0. */
  function Rows(imagesDir: string, saved: seq<(string, string)>, foods: seq<string>): seq<ImageRow>
  {
    Map(saved, (e: (string, string)) => SavedRow(imagesDir, e.0, e.1, 0, foods))
  }

  /** Row i is the row `save_food_image` writes for pair i. */
  lemma RowsAt(imagesDir: string, saved: seq<(string, string)>, foods: seq<string>, i: nat)
    requires i < |saved|
    ensures |Rows(imagesDir, saved, foods)| == |saved|
    ensures Rows(imagesDir, saved, foods)[i] == SavedRow(imagesDir, saved[i].0, saved[i].1, 0, foods)
  {
    MapAt(saved, (e: (string, string)) => SavedRow(imagesDir, e.0, e.1, 0, foods), i);
  }

  lemma RowsConcat(imagesDir: string, a: seq<(string, string)>, b: seq<(string, string)>, foods: seq<string>)
    ensures Rows(imagesDir, a + b, foods) == Rows(imagesDir, a, foods) + Rows(imagesDir, b, foods)
  {
    MapConcat(a, b, (e: (string, string)) => SavedRow(imagesDir, e.0, e.1, 0, foods));
  }

  /** One more file saved. */
  lemma FileStep(target0: seq<ImageRow>, imagesDir: string, classFolder: string, key: string, files: seq<string>,
                 i: nat, foods: seq<string>)
    requires i < |files|
    ensures target0 + Rows(imagesDir, FilePaths(classFolder, key, files[..i + 1]), foods)
      == target0 + Rows(imagesDir, FilePaths(classFolder, key, files[..i]), foods)
        + [SavedRow(imagesDir, JoinPath(classFolder, files[i]), key, 0, foods)]
  {
    var p := (JoinPath(classFolder, files[i]), key);
    assert files[..i + 1] == files[..i] + [files[i]];
    assert [files[i]][..0] == [];
    MapConcat(files[..i], [files[i]], (f: string) => (JoinPath(classFolder, f), key));
    assert [p][..0] == [];
    RowsConcat(imagesDir, FilePaths(classFolder, key, files[..i]), [p], foods);
  }

  /** An exception is contained in its category: what a dict saves and
      skips is what its parts save and skip, so a failing category neither
      stops nor changes the ones after it. */
  lemma SavingIsPerKey(a: Dict<string, seq<string>>, b: Dict<string, seq<string>>, imagesFolder: string,
                       contents: map<string, seq<bv8>>)
    ensures SavedPaths(a + b, imagesFolder, contents) == SavedPaths(a, imagesFolder, contents) + SavedPaths(b, imagesFolder, contents)
    ensures Skipped(a + b, imagesFolder, contents) == Skipped(a, imagesFolder, contents) + Skipped(b, imagesFolder, contents)
  {
    FlatMapConcat(a, b, (e: (string, seq<string>)) => KeyPaths(imagesFolder, e.0, e.1, contents));
    CountIfConcat(a, b, (e: (string, seq<string>)) => Abandoned(imagesFolder, e.0, e.1, contents));
  }

  /** Within a category, the files before the first unreadable one are all
      saved, in order, under that category; the category counts once as
      skipped exactly when some file of it cannot be opened, however many
      cannot. */
  lemma KeyOutcome(imagesFolder: string, key: string, files: seq<string>, contents: map<string, seq<bv8>>)
    ensures var ps := KeyPaths(imagesFolder, key, files, contents);
      |ps| <= |files| &&
      forall j :: 0 <= j < |ps| ==> ps[j] == (JoinPath(JoinPath(imagesFolder, key), files[j]), key)
    ensures Abandoned(imagesFolder, key, files, contents) <==>
      exists j :: 0 <= j < |files| && JoinPath(JoinPath(imagesFolder, key), files[j]) !in contents
    ensures (forall j :: 0 <= j < |files| ==> JoinPath(JoinPath(imagesFolder, key), files[j]) in contents) ==>
      |KeyPaths(imagesFolder, key, files, contents)| == |files|
  {
    var classFolder := JoinPath(imagesFolder, key);
    var n := ReadablePrefix(classFolder, files, contents);
    var ps := KeyPaths(imagesFolder, key, files, contents);
    forall j | 0 <= j < |ps| ensures ps[j] == (JoinPath(classFolder, files[j]), key) {
      MapAt(files[..n], (f: string) => (JoinPath(classFolder, f), key), j);
    }
  }

  /** The rows of one more category land after those of the earlier ones. */
  lemma TableStep(target0: seq<ImageRow>, d: Dict<string, seq<string>>, k: nat, imagesFolder: string,
                  contents: map<string, seq<bv8>>, imagesDir: string, foods: seq<string>)
    requires k < |d|
    ensures target0 + Rows(imagesDir, SavedPaths(d[..k + 1], imagesFolder, contents), foods)
      == target0 + Rows(imagesDir, SavedPaths(d[..k], imagesFolder, contents), foods)
        + Rows(imagesDir, KeyPaths(imagesFolder, d[k].0, d[k].1, contents), foods)
  {
    DictStep(d, k, imagesFolder, contents);
    RowsConcat(imagesDir, SavedPaths(d[..k], imagesFolder, contents), KeyPaths(imagesFolder, d[k].0, d[k].1, contents), foods);
  }

  /** One more category processed. */
  lemma DictStep(d: Dict<string, seq<string>>, k: nat, imagesFolder: string, contents: map<string, seq<bv8>>)
    requires k < |d|
    ensures SavedPaths(d[..k + 1], imagesFolder, contents)
      == SavedPaths(d[..k], imagesFolder, contents) + KeyPaths(imagesFolder, d[k].0, d[k].1, contents)
    ensures Skipped(d[..k + 1], imagesFolder, contents) == Skipped(d[..k], imagesFolder, contents)
      + (if Abandoned(imagesFolder, d[k].0, d[k].1, contents) then 1 else 0)
  {
    assert d[..k + 1][..k] == d[..k];
  }

  /** The body of the `try` in `saving_dict_to_db` for one category: saves
      its files in order until one cannot be opened; `abandoned` says the
      `except` branch ran. */
  method SaveCategory(key: string, files: seq<string>, imagesFolder: string, trainFlag: bool,
                      collector: DataCollector, contents: map<string, seq<bv8>>)
    returns (added: nat, abandoned: bool)
    requires collector.db.present
    modifies collector.db
    ensures collector.db.present
    ensures collector.db.Table(trainFlag) == old(collector.db.Table(trainFlag))
      + Rows(collector.imagesDir, KeyPaths(imagesFolder, key, files, contents), collector.specificFoods.items)
    ensures collector.db.Table(!trainFlag) == old(collector.db.Table(!trainFlag))
    ensures added == |KeyPaths(imagesFolder, key, files, contents)|
    ensures abandoned == Abandoned(imagesFolder, key, files, contents)
  {
    ghost var foods := collector.specificFoods.items;
    ghost var imagesDir := collector.imagesDir;
    ghost var target0 := collector.db.Table(trainFlag);
    var classFolder := JoinPath(imagesFolder, key);
    added, abandoned := 0, false;
    assert files[..0] == [];
    while added < |files| && !abandoned
      invariant added <= ReadablePrefix(classFolder, files, contents)
      invariant abandoned ==> added == ReadablePrefix(classFolder, files, contents) && added < |files|
      invariant collector.db.present && collector.specificFoods.items == foods
      invariant collector.db.Table(trainFlag) == target0 + Rows(imagesDir, FilePaths(classFolder, key, files[..added]), foods)
      invariant collector.db.Table(!trainFlag) == old(collector.db.Table(!trainFlag))
      decreases |files| - added, !abandoned
    {
      var filePath := JoinPath(classFolder, files[added]);
      if filePath !in contents {
        abandoned := true;
      } else {
        var imageBytes := contents[filePath];
        var detectedFood := collector.SaveFoodImage(trainFlag, filePath, imageBytes, key, 0);
        FileStep(target0, imagesDir, classFolder, key, files, added, foods);
        added := added + 1;
      }
    }
  }

  /** `saving_dict_to_db(image_dict, train_flag, images_folder, collector)`:
      `added_count` and `skipped_count` are the numbers it logs. */
  method SavingDictToDb(imageDict: Dict<string, seq<string>>, trainFlag: bool, imagesFolder: string,
                        collector: DataCollector, contents: map<string, seq<bv8>>)
    returns (addedCount: nat, skippedCount: nat)
    requires collector.db.present
    modifies collector.db
    ensures collector.db.present
    ensures collector.db.Table(trainFlag) == old(collector.db.Table(trainFlag))
      + Rows(collector.imagesDir, SavedPaths(imageDict, imagesFolder, contents), collector.specificFoods.items)
    ensures collector.db.Table(!trainFlag) == old(collector.db.Table(!trainFlag))
    ensures addedCount == |SavedPaths(imageDict, imagesFolder, contents)|
    ensures skippedCount == Skipped(imageDict, imagesFolder, contents)
  {
    ghost var foods := collector.specificFoods.items;
    ghost var imagesDir := collector.imagesDir;
    ghost var target0 := collector.db.Table(trainFlag);
    ghost var other0 := collector.db.Table(!trainFlag);
    addedCount, skippedCount := 0, 0;
    for k := 0 to |imageDict|
      invariant collector.db.present && collector.specificFoods.items == foods
      invariant collector.db.Table(trainFlag) == target0 + Rows(imagesDir, SavedPaths(imageDict[..k], imagesFolder, contents), foods)
      invariant collector.db.Table(!trainFlag) == other0
      invariant addedCount == |SavedPaths(imageDict[..k], imagesFolder, contents)|
      invariant skippedCount == Skipped(imageDict[..k], imagesFolder, contents)
    {
      var (key, files) := imageDict[k];
      var added, abandoned := SaveCategory(key, files, imagesFolder, trainFlag, collector, contents);
      addedCount := addedCount + added;
      if abandoned {
        skippedCount := skippedCount + 1;
      }
      DictStep(imageDict, k, imagesFolder, contents);
      TableStep(target0, imageDict, k, imagesFolder, contents, imagesDir, foods);
    }
    assert imageDict[..|imageDict|] == imageDict;
  }

  /** `init_database(collector)`: `disk` says which directories exist. Both
      folder checks test `ml/train_images`; the dicts are listed from the
      relative paths `train_images` and `test_images`, and the test dict is
      then read from `ml/train_images` too. A listing that fails raises out
      of the call. */
  method InitDatabase(collector: DataCollector, mlDir: string, disk: Disk, listing: Listing, contents: map<string, seq<bv8>>)
    returns (error: Option<string>)
    requires collector.db.present
    modifies collector.db
    ensures collector.db.present
    ensures var trainFolder := JoinPath(mlDir, "train_images");
      var foods := collector.specificFoods.items;
      var trainListed := forall k :: k in foods ==> JoinPath("train_images", k) in listing;
      var testListed := forall k :: k in foods ==> JoinPath("test_images", k) in listing;
      if trainFolder !in disk.dirs then
        error.None? && collector.db.foodImages == old(collector.db.foodImages)
        && collector.db.testFoodImages == old(collector.db.testFoodImages)
      else if !trainListed || !testListed then
        error.Some? && collector.db.foodImages == old(collector.db.foodImages)
        && collector.db.testFoodImages == old(collector.db.testFoodImages)
      else
        error.None?
        && collector.db.foodImages == old(collector.db.foodImages)
          + Rows(collector.imagesDir, SavedPaths(ImageDict(foods, "train_images", listing), trainFolder, contents), foods)
        && collector.db.testFoodImages == old(collector.db.testFoodImages)
          + Rows(collector.imagesDir, SavedPaths(ImageDict(foods, "test_images", listing), trainFolder, contents), foods)
  {
    var trainImagesFolder := JoinPath(mlDir, "train_images");
    var testImagesFolder := JoinPath(mlDir, "train_images");
    if trainImagesFolder !in disk.dirs {
      return None;
    }
    if testImagesFolder !in disk.dirs {
      return None;
    }
    var trainImageDict, trainError := CreateImageDictByFolder("train_images", collector.specificFoods, listing);
    if trainError.Some? {
      return trainError;
    }
    var testImageDict, testError := CreateImageDictByFolder("test_images", collector.specificFoods, listing);
    if testError.Some? {
      return testError;
    }
    var trainAdded, trainSkipped := SavingDictToDb(trainImageDict, true, trainImagesFolder, collector, contents);
    var testAdded, testSkipped := SavingDictToDb(testImageDict, false, testImagesFolder, collector, contents);
    error := None;
  }

  /** `add_files_to_train_database(new_files_dict, collector, train)`: each
      value is a string, so `for path in filename` runs over its characters;
      the first one either cannot be opened or reaches `save_food_image`
      with `user_id` given twice. Either way the call raises before any row
      is written, whenever some value is non-empty. */
  method AddFilesToTrainDatabase(newFilesDict: Dict<string, string>, collector: DataCollector, train: bool,
                                 contents: map<string, seq<bv8>>)
    returns (error: Option<string>)
    ensures error.Some? <==> exists i :: 0 <= i < |newFilesDict| && newFilesDict[i].1 != ""
  {
    for k := 0 to |newFilesDict|
      invariant forall i :: 0 <= i < k ==> newFilesDict[i].1 == ""
    {
      var (key, filename) := newFilesDict[k];
      for c := 0 to |filename|
        invariant c == 0
      {
        var path := [filename[c]];
        if path !in contents {
          return Some(NotFound(path));
        }
        return Some("save_food_image() got multiple values for argument 'user_id'");
      }
    }
    error := None;
  }
}
