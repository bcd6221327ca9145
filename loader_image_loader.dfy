/** ml/loader/image_loader.py: the fetch coordinator and the image validator.
    Workers pop category keys from a shared list under a lock and call the
    provider for each. With `num_threads = 1` the drain is a sequential loop,
    which is how it is modelled. The module-level `keys` is the registry's
    `product_lists` object itself, not a copy. */
module LoaderImageLoader {
  import opened Collections
  import opened Text
  import opened DataLoader
  import opened Provider
  import opened ImageLoader

  const NumThreads: nat := 1

  /** A file on disk: its directory, its name, and whether PIL's `verify()`
      accepts it. */
  datatype File = File(dir: string, name: string, decodes: bool)

  /** `os.walk(root)` visits f: f lies in root or in one of its subdirectories. */
  predicate Under(f: File, root: string) {
    f.dir == root || StartsWith(f.dir, root + "/")
  }

  predicate Survives(f: File, root: string) {
    !Under(f, root) || f.decodes
  }

  /** The files below some directory, as a mutable tree. */
  class FileTree {
    var files: seq<File>

    constructor(files: seq<File>)
      ensures this.files == files
    {
      this.files := files;
    }
  }

  /** One pass of the validator over `root`: the files that remain, the
      number deleted, the number accepted. */
  datatype Pass = Pass(remaining: seq<File>, deleted: nat, accepted: nat)

  function ValidateDir(files: seq<File>, root: string): Pass
  {
    if files == [] then Pass([], 0, 0)
    else
      var before := ValidateDir(files[..|files| - 1], root);
      var f := files[|files| - 1];
      if !Under(f, root) then Pass(before.remaining + [f], before.deleted, before.accepted)
      else if f.decodes then Pass(before.remaining + [f], before.deleted, before.accepted + 1)
      else Pass(before.remaining, before.deleted + 1, before.accepted)
  }

  /** The walk of `validate_images_by_folder` over one directory `root`:
      every file below it is opened and verified; a file that fails is
      removed and counted as deleted, the others are counted as accepted. */
  method ValidateDirectory(listing: seq<File>, root: string) returns (kept: seq<File>, deleted: nat, accepted: nat)
    ensures Pass(kept, deleted, accepted) == ValidateDir(listing, root)
  {
    kept, deleted, accepted := [], 0, 0;
    for i := 0 to |listing|
      invariant Pass(kept, deleted, accepted) == ValidateDir(listing[..i], root)
    {
      var file := listing[i];
      assert listing[..i + 1][..i] == listing[..i];
      if Under(file, root) {
        if file.decodes {
          accepted := accepted + 1;
          kept := kept + [file];
        } else {
          deleted := deleted + 1;
        }
      } else {
        kept := kept + [file];
      }
    }
    assert listing[..|listing|] == listing;
  }

  /** The validator over the directories `folder/key`, key by key. */
  function ValidateKeys(files: seq<File>, folder: string, keys: seq<string>): Pass
  {
    if keys == [] then Pass(files, 0, 0)
    else
      var before := ValidateKeys(files, folder, keys[..|keys| - 1]);
      var step := ValidateDir(before.remaining, JoinPath(folder, keys[|keys| - 1]));
      Pass(step.remaining, before.deleted + step.deleted, before.accepted + step.accepted)
  }

  /** Validating one directory deletes exactly the files below it that fail
      to decode and keeps every other file. */
  lemma {:induction false} ValidateDirKeeps(files: seq<File>, root: string)
    ensures forall f :: f in ValidateDir(files, root).remaining <==> f in files && Survives(f, root)
  {
    if files != [] {
      var init := files[..|files| - 1];
      ValidateDirKeeps(init, root);
      assert files == init + [files[|files| - 1]];
    }
  }

  /** In full: the files kept are those that survive, in order, and each
      visited file is counted once, as deleted or as accepted. */
  lemma {:induction false} ValidateDirSpec(files: seq<File>, root: string)
    ensures ValidateDir(files, root).remaining == Filter(files, f => Survives(f, root))
    ensures ValidateDir(files, root).deleted == CountIf(files, f => Under(f, root) && !f.decodes)
    ensures ValidateDir(files, root).accepted == CountIf(files, f => Under(f, root) && f.decodes)
  {
    if files != [] {
      ValidateDirSpec(files[..|files| - 1], root);
    }
  }

  /** A corrupt file inside the folder of a key is gone after validation,
      whatever else lies beside it. */
  lemma {:induction false} ValidateKeysDeletes(files: seq<File>, folder: string, keys: seq<string>, f: File, k: string)
    requires !f.decodes && k in keys && Under(f, JoinPath(folder, k))
    ensures f !in ValidateKeys(files, folder, keys).remaining
  {
    var init, last := keys[..|keys| - 1], keys[|keys| - 1];
    var before := ValidateKeys(files, folder, init);
    var root := JoinPath(folder, last);
    ValidateDirKeeps(before.remaining, root);
    assert ValidateKeys(files, folder, keys).remaining == ValidateDir(before.remaining, root).remaining;
    if k != last {
      assert keys == init + [last];
      ValidateKeysDeletes(files, folder, init, f, k);
    }
  }

  /** A sound file stays after validation, and so does any file outside the
      folders of the keys. */
  lemma {:induction false} ValidateKeysKeeps(files: seq<File>, folder: string, keys: seq<string>, f: File)
    requires f in files
    requires f.decodes || forall k :: k in keys ==> !Under(f, JoinPath(folder, k))
    ensures f in ValidateKeys(files, folder, keys).remaining
  {
    if keys != [] {
      var init, last := keys[..|keys| - 1], keys[|keys| - 1];
      assert keys == init + [last];
      ValidateKeysKeeps(files, folder, init, f);
      var before := ValidateKeys(files, folder, init);
      ValidateDirKeeps(before.remaining, JoinPath(folder, last));
      assert ValidateKeys(files, folder, keys).remaining == ValidateDir(before.remaining, JoinPath(folder, last)).remaining;
    }
  }

  /** When `keys` has been emptied, validation visits nothing. */
  lemma ValidateDrainedVisitsNothing(files: seq<File>, folder: string)
    ensures ValidateKeys(files, folder, []) == Pass(files, 0, 0)
  {
  }

  /** Each key handed out by a drain of `keys` is requested exactly once, and
      the keys are requested from the end of the list backwards. */
  lemma DrainRequestsEachKeyOnce(keys: seq<string>, limit: int, folder: string)
    ensures multiset(Terms(UniformRequests(Reverse(keys), limit, folder))) == multiset(keys)
    ensures forall i :: 0 <= i < |keys| ==>
      UniformRequests(Reverse(keys), limit, folder)[i] == DownloadCall(keys[|keys| - 1 - i], limit, folder)
  {
    assert Terms(UniformRequests(Reverse(keys), limit, folder)) == Reverse(keys);
    ReversePermutes(keys);
  }

  lemma TermsOfDeficitRequests(terms: seq<string>, absent: Dict<string, int>, outputDir: string)
    ensures Terms(DeficitRequests(terms, absent, outputDir)) == terms
  {
  }

  lemma TermsConcat(a: seq<Request>, b: seq<Request>)
    ensures Terms(a + b) == Terms(a) + Terms(b)
  {
  }

  /** The un-joined workers of `download_absent_data_for_classes` and its own
      loop together request every absent product twice. */
  lemma AbsentProductsRequestedTwice(absent: Dict<string, int>, folderName: string, folder: string)
    ensures multiset(Terms(DeficitRequests(Reverse(Keys(absent)), absent, folderName)
                         + DeficitRequests(Keys(absent), absent, folder)))
      == multiset(Keys(absent)) + multiset(Keys(absent))
  {
    var keys := Keys(absent);
    var workers := DeficitRequests(Reverse(keys), absent, folderName);
    var main := DeficitRequests(keys, absent, folder);
    TermsConcat(workers, main);
    TermsOfDeficitRequests(Reverse(keys), absent, folderName);
    TermsOfDeficitRequests(keys, absent, folder);
    ReversePermutes(keys);
  }

  /** `multithread_absent_downloading`: pops keys from the end of
      `absent_keys` until it is empty, requesting each with its own amount. */
  method MultithreadAbsentDownloading(absentDict: Dict<string, int>, absentKeys: PyList, imagesFolder: string, provider: ImageProvider)
    requires forall k :: k in absentKeys.items ==> HasKey(absentDict, k)
    modifies absentKeys, provider
    ensures absentKeys.items == []
    ensures provider.requests == old(provider.requests) + DeficitRequests(Reverse(old(absentKeys.items)), absentDict, imagesFolder)
  {
    while absentKeys.items != []
      invariant forall k :: k in absentKeys.items ==> HasKey(absentDict, k)
      invariant absentKeys.items == old(absentKeys.items)[..|absentKeys.items|]
      invariant provider.requests == old(provider.requests)
        + DeficitRequests(Reverse(old(absentKeys.items)[|absentKeys.items|..]), absentDict, imagesFolder)
      decreases |absentKeys.items|
    {
      var n := |absentKeys.items|;
      var key := absentKeys.items[n - 1];
      absentKeys.items := absentKeys.items[..n - 1];
      var amount := AmountOf(absentDict, key);
      provider.Download(key, amount, imagesFolder);
      ghost var o := old(absentKeys.items);
      assert o[n - 1..] == [key] + o[n..];
      assert Reverse(o[n - 1..]) == Reverse(o[n..]) + [key];
    }
  }

  /** The module's globals: the lock-guarded work list `keys`. */
  class ImageLoaderModule {
    const keys: PyList

    /** `keys = product_lists`: an alias, not a copy. */
    constructor(registry: Registry)
      ensures keys == registry.productLists
    {
      keys := registry.productLists;
    }

    /** `multithread_downloading`: pops keys from the end of the shared list
        until it is empty, requesting each with the one `limit`. */
    method MultithreadDownloading(limit: int, folderName: string, provider: ImageProvider)
      modifies keys, provider
      ensures keys.items == []
      ensures provider.requests == old(provider.requests) + UniformRequests(Reverse(old(keys.items)), limit, folderName)
    {
      while keys.items != []
        invariant keys.items == old(keys.items)[..|keys.items|]
        invariant provider.requests == old(provider.requests)
          + UniformRequests(Reverse(old(keys.items)[|keys.items|..]), limit, folderName)
        decreases |keys.items|
      {
        var n := |keys.items|;
        var key := keys.items[n - 1];
        keys.items := keys.items[..n - 1];
        provider.Download(key, limit, folderName);
        ghost var o := old(keys.items);
        assert o[n - 1..] == [key] + o[n..];
        assert Reverse(o[n - 1..]) == Reverse(o[n..]) + [key];
      }
    }

    /** `download_train_data_for_classes`: starts and joins `num_threads`
        workers. The first drains the list; any later one finds it empty. */
    method DownloadTrainDataForClasses(limit: int, folderName: string, provider: ImageProvider)
      modifies keys, provider
      ensures keys.items == []
      ensures provider.requests == old(provider.requests) + UniformRequests(Reverse(old(keys.items)), limit, folderName)
    {
      for t := 0 to NumThreads
        invariant t > 0 ==> keys.items == []
        invariant t > 0 ==> provider.requests == old(provider.requests) + UniformRequests(Reverse(old(keys.items)), limit, folderName)
        invariant t == 0 ==> keys.items == old(keys.items) && provider.requests == old(provider.requests)
      {
        MultithreadDownloading(limit, folderName, provider);
      }
    }

    /** `validate_images_by_folder`: for every key still in `keys`, walks
        `folder/key`, deletes the files that fail to decode and counts the
        deleted and the accepted files. */
    method ValidateImagesByFolder(folderName: string, tree: FileTree) returns (numDeleted: nat, numSuccess: nat)
      modifies tree
      ensures ValidateKeys(old(tree.files), folderName, keys.items) == Pass(tree.files, numDeleted, numSuccess)
    {
      numDeleted, numSuccess := 0, 0;
      for k := 0 to |keys.items|
        invariant ValidateKeys(old(tree.files), folderName, keys.items[..k]) == Pass(tree.files, numDeleted, numSuccess)
      {
        assert keys.items[..k + 1][..k] == keys.items[..k];
        var kept, deleted, accepted := ValidateDirectory(tree.files, JoinPath(folderName, keys.items[k]));
        tree.files := kept;
        numDeleted, numSuccess := numDeleted + deleted, numSuccess + accepted;
      }
      assert keys.items[..|keys.items|] == keys.items;
    }
  }

  /** The module's `keys` is the registry's list: a train download in a
      process empties the registry itself, and a validation that follows in
      the same process visits no folder, deletes nothing and counts nothing. */
  method DrainEmptiesRegistry(registry: Registry, limit: int, folderName: string, tree: FileTree, provider: ImageProvider)
    returns (numDeleted: nat, numSuccess: nat)
    modifies registry.productLists, tree, provider
    ensures registry.productLists.items == []
    ensures numDeleted == 0 && numSuccess == 0
    ensures tree.files == old(tree.files)
  {
    var loader := new ImageLoaderModule(registry);
    loader.DownloadTrainDataForClasses(limit, folderName, provider);
    numDeleted, numSuccess := loader.ValidateImagesByFolder(folderName, tree);
  }

  /** The worker threads of `download_absent_data_for_classes`: each drains
      the shared copy of the keys from the back, so only the first one finds
      anything to request. */
  method StartWorkers(absentDict: Dict<string, int>, folderName: string, provider: ImageProvider)
    modifies provider
    ensures provider.requests == old(provider.requests) + DeficitRequests(Reverse(Keys(absentDict)), absentDict, folderName)
  {
    var absentKeys := new PyList(Keys(absentDict));
    for t := 0 to NumThreads
      invariant t > 0 ==> absentKeys.items == []
      invariant t > 0 ==>
        provider.requests == old(provider.requests) + DeficitRequests(Reverse(Keys(absentDict)), absentDict, folderName)
      invariant t == 0 ==> absentKeys.items == Keys(absentDict) && provider.requests == old(provider.requests)
    {
      MultithreadAbsentDownloading(absentDict, absentKeys, folderName, provider);
    }
  }

  /** `download_absent_data_for_classes(absent_dict, folder_name)`: starts
      workers that drain a copy of the keys and never joins them, then
      requests every product again itself, into `<module dir>/folder_name`,
      and returns `new_files_dict`. The workers are taken to finish before
      the loop starts. */
  method DownloadAbsentDataForClasses(absentDict: Dict<string, int>, folderName: string, moduleDir: string, provider: ImageProvider)
    returns (newFilesDict: Dict<string, string>)
    requires IsDict(absentDict)
    modifies provider
    ensures provider.requests == old(provider.requests)
      + DeficitRequests(Reverse(Keys(absentDict)), absentDict, folderName)
      + DeficitRequests(Keys(absentDict), absentDict, JoinPath(moduleDir, folderName))
    ensures newFilesDict == NewFilesDict(absentDict)
  {
    StartWorkers(absentDict, folderName, provider);
    // The sequential loop that follows is the one of ml/image_loader.py,
    // aimed at `<module dir>/folder_name`.
    newFilesDict := ImageLoader.DownloadAbsentDataForClasses(absentDict, JoinPath(moduleDir, folderName), provider);
  }
}
