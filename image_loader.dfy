/** ml/image_loader.py: the sequential download variants. One provider call
    per category (bulk seeding) or per deficit-map entry (top-up), and the
    `new_files_dict` that the top-up returns. */
module ImageLoader {
  import opened Collections
  import opened Text
  import opened DataLoader
  import opened Provider

  /** One download per term, all with the same limit and output folder. */
  function UniformRequests(terms: seq<string>, limit: int, outputDir: string): (rs: seq<Request>)
    ensures |rs| == |terms|
    ensures forall i :: 0 <= i < |terms| ==> rs[i] == DownloadCall(terms[i], limit, outputDir)
  {
    seq(|terms|, i requires 0 <= i < |terms| => DownloadCall(terms[i], limit, outputDir))
  }

  /** The amount a deficit map records for a category (0 when absent). */
  function AmountOf(absent: Dict<string, int>, p: string): int
  {
    match Get(absent, p)
    case Some(a) => a
    case None => 0
  }

  /** One download per term, each with the amount the deficit map records. */
  function DeficitRequests(terms: seq<string>, absent: Dict<string, int>, outputDir: string): (rs: seq<Request>)
    ensures |rs| == |terms|
    ensures forall i :: 0 <= i < |terms| ==> rs[i] == DownloadCall(terms[i], AmountOf(absent, terms[i]), outputDir)
  {
    seq(|terms|, i requires 0 <= i < |terms| => DownloadCall(terms[i], AmountOf(absent, terms[i]), outputDir))
  }

  /** `new_files_dict`: for each (product, amount) in order, the loop
      `for i in range(amount): new_files_dict[product] = f"Image_{i}"`. */
  function NewFilesDict(absent: Dict<string, int>): Dict<string, string>
  {
    if absent == [] then []
    else
      var d := NewFilesDict(absent[..|absent| - 1]);
      var (p, amount) := absent[|absent| - 1];
      if amount >= 1 then Put(d, p, "Image_" + NatToString(amount - 1)) else d
  }

  function ImageName(i: nat): string {
    "Image_" + NatToString(i)
  }

  /** Two assignments to the same key: the second wins. */
  lemma PutTwice(d: Dict<string, string>, k: string, a: string, b: string)
    ensures Put(Put(d, k, a), k, b) == Put(d, k, b)
  {
    PutKeys(d, k, a);
  }

  /** r holds product p iff the deficit map gives p an amount of at least 1,
      and then the single name `Image_{amount-1}`. */
  ghost predicate HoldsLastNames(absent: Dict<string, int>, r: Dict<string, string>) {
    IsDict(r)
    && (forall p :: HasKey(r, p) <==> HasKey(absent, p) && AmountOf(absent, p) >= 1)
    && (forall p :: HasKey(r, p) ==> Get(r, p) == Some(ImageName(AmountOf(absent, p) - 1)))
  }

  /** Dropping the last entry of a deficit map changes nothing for the
      other categories. */
  lemma OthersUnchanged(absent: Dict<string, int>)
    requires IsDict(absent) && absent != []
    ensures forall q :: q != absent[|absent| - 1].0 ==>
      AmountOf(absent, q) == AmountOf(absent[..|absent| - 1], q) && (HasKey(absent, q) <==> HasKey(absent[..|absent| - 1], q))
  {
    forall q | q != absent[|absent| - 1].0
      ensures AmountOf(absent, q) == AmountOf(absent[..|absent| - 1], q) && (HasKey(absent, q) <==> HasKey(absent[..|absent| - 1], q))
    {
      GetDropLast(absent, q);
    }
  }

  /** A last entry with an amount of at least 1 records its final name. */
  lemma HoldsLastNamesPut(absent: Dict<string, int>, d: Dict<string, string>)
    requires IsDict(absent) && absent != [] && absent[|absent| - 1].1 >= 1
    requires HoldsLastNames(absent[..|absent| - 1], d)
    ensures HoldsLastNames(absent, Put(d, absent[|absent| - 1].0, ImageName(absent[|absent| - 1].1 - 1)))
  {
    var (p, amount) := absent[|absent| - 1];
    LastKeyIsNew(absent);
    OthersUnchanged(absent);
    PutKeeps(d, p, ImageName(amount - 1));
    PutKeysHeld(absent, d);
    PutNamesHeld(absent, d);
  }

  lemma PutKeysHeld(absent: Dict<string, int>, d: Dict<string, string>)
    requires IsDict(absent) && absent != [] && absent[|absent| - 1].1 >= 1 && IsDict(d)
    requires forall q :: q != absent[|absent| - 1].0 ==>
      AmountOf(absent, q) == AmountOf(absent[..|absent| - 1], q) && (HasKey(absent, q) <==> HasKey(absent[..|absent| - 1], q))
    requires forall p :: HasKey(d, p) <==> HasKey(absent[..|absent| - 1], p) && AmountOf(absent[..|absent| - 1], p) >= 1
    ensures forall q :: HasKey(Put(d, absent[|absent| - 1].0, ImageName(absent[|absent| - 1].1 - 1)), q) <==>
      HasKey(absent, q) && AmountOf(absent, q) >= 1
  {
    var (p, amount) := absent[|absent| - 1];
    var r := Put(d, p, ImageName(amount - 1));
    PutKeeps(d, p, ImageName(amount - 1));
    forall q ensures HasKey(r, q) <==> HasKey(absent, q) && AmountOf(absent, q) >= 1 {
      if q == p {
        LastKeyIsNew(absent);
      }
    }
  }

  lemma PutNamesHeld(absent: Dict<string, int>, d: Dict<string, string>)
    requires IsDict(absent) && absent != [] && absent[|absent| - 1].1 >= 1 && IsDict(d)
    requires forall q :: q != absent[|absent| - 1].0 ==>
      AmountOf(absent, q) == AmountOf(absent[..|absent| - 1], q) && (HasKey(absent, q) <==> HasKey(absent[..|absent| - 1], q))
    requires forall p :: HasKey(d, p) ==>
      AmountOf(absent[..|absent| - 1], p) >= 1 && Get(d, p) == Some(ImageName(AmountOf(absent[..|absent| - 1], p) - 1))
    ensures forall q :: HasKey(Put(d, absent[|absent| - 1].0, ImageName(absent[|absent| - 1].1 - 1)), q) ==>
      AmountOf(absent, q) >= 1 && Get(Put(d, absent[|absent| - 1].0, ImageName(absent[|absent| - 1].1 - 1)), q) == Some(ImageName(AmountOf(absent, q) - 1))
  {
    var r := Put(d, absent[|absent| - 1].0, ImageName(absent[|absent| - 1].1 - 1));
    PutKeeps(d, absent[|absent| - 1].0, ImageName(absent[|absent| - 1].1 - 1));
    LastKeyIsNew(absent);
    forall q | HasKey(r, q) ensures AmountOf(absent, q) >= 1 && Get(r, q) == Some(ImageName(AmountOf(absent, q) - 1)) {
      PutNameHeld(absent, d, r, q);
    }
  }

  lemma PutNameHeld(absent: Dict<string, int>, d: Dict<string, string>, r: Dict<string, string>, q: string)
    requires absent != [] && absent[|absent| - 1].1 >= 1
    requires AmountOf(absent, absent[|absent| - 1].0) == absent[|absent| - 1].1
    requires q != absent[|absent| - 1].0 ==> AmountOf(absent, q) == AmountOf(absent[..|absent| - 1], q)
    requires HasKey(d, q) ==>
      AmountOf(absent[..|absent| - 1], q) >= 1 && Get(d, q) == Some(ImageName(AmountOf(absent[..|absent| - 1], q) - 1))
    requires q != absent[|absent| - 1].0 ==> Get(r, q) == Get(d, q) && (HasKey(r, q) <==> HasKey(d, q))
    requires Get(r, absent[|absent| - 1].0) == Some(ImageName(absent[|absent| - 1].1 - 1))
    requires HasKey(r, q)
    ensures AmountOf(absent, q) >= 1 && Get(r, q) == Some(ImageName(AmountOf(absent, q) - 1))
  {
  }

  /** A last entry with an amount below 1 records nothing. */
  lemma HoldsLastNamesSkip(absent: Dict<string, int>, d: Dict<string, string>)
    requires IsDict(absent) && absent != [] && absent[|absent| - 1].1 < 1
    requires HoldsLastNames(absent[..|absent| - 1], d)
    ensures HoldsLastNames(absent, d)
  {
    LastKeyIsNew(absent);
    OthersUnchanged(absent);
    forall q ensures HasKey(d, q) <==> HasKey(absent, q) && AmountOf(absent, q) >= 1 {
      SkipKeyHeld(absent, d, q);
    }
    forall q | HasKey(d, q) ensures Get(d, q) == Some(ImageName(AmountOf(absent, q) - 1)) {
      SkipKeyHeld(absent, d, q);
    }
  }

  lemma SkipKeyHeld(absent: Dict<string, int>, d: Dict<string, string>, q: string)
    requires absent != [] && absent[|absent| - 1].1 < 1
    requires AmountOf(absent, absent[|absent| - 1].0) == absent[|absent| - 1].1
    requires !HasKey(absent[..|absent| - 1], absent[|absent| - 1].0)
    requires q != absent[|absent| - 1].0 ==>
      AmountOf(absent, q) == AmountOf(absent[..|absent| - 1], q) && (HasKey(absent, q) <==> HasKey(absent[..|absent| - 1], q))
    requires HasKey(d, q) <==> HasKey(absent[..|absent| - 1], q) && AmountOf(absent[..|absent| - 1], q) >= 1
    ensures HasKey(d, q) <==> HasKey(absent, q) && AmountOf(absent, q) >= 1
    ensures HasKey(d, q) ==> AmountOf(absent, q) == AmountOf(absent[..|absent| - 1], q)
  {
  }

  /** The returned dict holds product p iff its amount is at least 1, and then
      the single name `Image_{amount-1}`, not a list of file names. */
  lemma {:induction false} NewFilesDictSpec(absent: Dict<string, int>)
    requires IsDict(absent)
    ensures IsDict(NewFilesDict(absent))
    ensures forall p :: HasKey(NewFilesDict(absent), p) <==> HasKey(absent, p) && AmountOf(absent, p) >= 1
    ensures forall p :: HasKey(NewFilesDict(absent), p) ==>
      Get(NewFilesDict(absent), p) == Some(ImageName(AmountOf(absent, p) - 1))
  {
    if absent != [] {
      var init := absent[..|absent| - 1];
      assert IsDict(init) by { assert Keys(init) == Keys(absent)[..|absent| - 1]; }
      NewFilesDictSpec(init);
      if absent[|absent| - 1].1 >= 1 {
        HoldsLastNamesPut(absent, NewFilesDict(init));
      } else {
        HoldsLastNamesSkip(absent, NewFilesDict(init));
      }
    }
  }

  /** One more deficit-map entry downloaded and recorded. */
  lemma DeficitStep(absent: Dict<string, int>, k: nat, outputDir: string)
    requires IsDict(absent) && k < |absent|
    ensures DeficitRequests(Keys(absent)[..k + 1], absent, outputDir)
      == DeficitRequests(Keys(absent)[..k], absent, outputDir) + [DownloadCall(absent[k].0, absent[k].1, outputDir)]
    ensures NewFilesDict(absent[..k + 1])
      == if absent[k].1 >= 1 then Put(NewFilesDict(absent[..k]), absent[k].0, ImageName(absent[k].1 - 1)) else NewFilesDict(absent[..k])
  {
    GetAt(absent, k);
    assert Keys(absent)[..k + 1] == Keys(absent)[..k] + [absent[k].0];
    assert absent[..k + 1][..k] == absent[..k];
  }

  /** The inner loop `for i in range(amount): new_files_dict[product] =
      f"Image_{i}"`: each pass overwrites the previous name. */
  method RecordImageNames(d: Dict<string, string>, product: string, amount: int) returns (r: Dict<string, string>)
    ensures r == if amount >= 1 then Put(d, product, ImageName(amount - 1)) else d
  {
    r := d;
    for i := 0 to if amount < 0 then 0 else amount
      invariant r == if i == 0 then d else Put(d, product, ImageName(i - 1))
    {
      if i > 0 {
        PutTwice(d, product, ImageName(i - 1), ImageName(i));
      }
      r := Put(r, product, "Image_" + NatToString(i));
    }
  }

  /** `download_train_data_for_classes(limit)`. */
  method DownloadTrainDataForClasses(limit: int, imagesFolder: string, productLists: PyList, provider: ImageProvider)
    modifies provider
    ensures provider.requests == old(provider.requests) + UniformRequests(productLists.items, limit, imagesFolder)
  {
    for i := 0 to |productLists.items|
      invariant provider.requests == old(provider.requests) + UniformRequests(productLists.items[..i], limit, imagesFolder)
    {
      provider.Download(productLists.items[i], limit, imagesFolder);
    }
    assert productLists.items[..|productLists.items|] == productLists.items;
  }

  /** `download_absent_data_for_classes(absent_dict)`: one download per entry
      in dict order, with that entry's amount; `absent_dict` is a value here,
      so it is left as it was. */
  method DownloadAbsentDataForClasses(absentDict: Dict<string, int>, imagesFolder: string, provider: ImageProvider)
    returns (newFilesDict: Dict<string, string>)
    requires IsDict(absentDict)
    modifies provider
    ensures provider.requests == old(provider.requests) + DeficitRequests(Keys(absentDict), absentDict, imagesFolder)
    ensures newFilesDict == NewFilesDict(absentDict)
  {
    newFilesDict := [];
    for k := 0 to |absentDict|
      invariant provider.requests == old(provider.requests) + DeficitRequests(Keys(absentDict)[..k], absentDict, imagesFolder)
      invariant newFilesDict == NewFilesDict(absentDict[..k])
    {
      var (product, amount) := absentDict[k];
      DeficitStep(absentDict, k, imagesFolder);
      provider.Download(product, amount, imagesFolder);
      newFilesDict := RecordImageNames(newFilesDict, product, amount);
    }
    assert absentDict[..|absentDict|] == absentDict;
    assert Keys(absentDict)[..|absentDict|] == Keys(absentDict);
  }
}
