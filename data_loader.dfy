/** ml/data_loader.py: the runtime category registry that
    `fill_list_on_init` builds from the JSON configuration, and the quota
    calculator `DataLoader`, which diffs a per-category limit against the
    number of entries already on disk and produces the deficit map
    `absent_list`. The configuration lists and the directory entry counts
    are inputs. */
module DataLoader {
  import opened Collections

  /** A Python list object. Modules that import `product_lists` share this
      one object, so a `pop` through any of them empties it for all. */
  class PyList {
    var items: seq<string>

    constructor(items: seq<string>)
      ensures this.items == items
    {
      this.items := items;
    }
  }

  /** The module-level tables `product_lists`, `product_classes_idx` and
      `food_mapping`, all empty at import time. */
  class Registry {
    const productLists: PyList
    var classesIdx: map<string, int>
    var foodMapping: map<string, string>

    constructor()
      ensures fresh(productLists) && productLists.items == []
      ensures classesIdx == map[] && foodMapping == map[]
    {
      productLists := new PyList([]);
      classesIdx := map[];
      foodMapping := map[];
    }

    /** `for ru, eng in zip(ru_list, en_list): food_mapping[eng] = ru`. */
    method MapTranslations(ruList: seq<string>, enList: seq<string>)
      modifies this
      ensures foodMapping == ZipInto(old(foodMapping), ruList, enList)
      ensures classesIdx == old(classesIdx)
    {
      var n := if |ruList| < |enList| then |ruList| else |enList|;
      for i := 0 to n
        invariant classesIdx == old(classesIdx)
        invariant foodMapping == ZipInto(old(foodMapping), ruList[..i], enList[..i])
      {
        assert ruList[..i + 1][..i] == ruList[..i] && enList[..i + 1][..i] == enList[..i];
        foodMapping := foodMapping[enList[i] := ruList[i]];
      }
      assert ZipInto(old(foodMapping), ruList[..n], enList[..n]) == ZipInto(old(foodMapping), ruList, enList) by {
        ZipIntoPrefix(old(foodMapping), ruList, enList);
      }
    }

    /** `fill_list_on_init()`: the English -> Russian pairs, then every Russian
        name's running index, then the names appended to `product_lists`,
        which is not cleared first. */
    method FillListOnInit(ruList: seq<string>, enList: seq<string>)
      modifies this, productLists
      ensures foodMapping == ZipInto(old(foodMapping), ruList, enList)
      ensures classesIdx == Enumerate(old(classesIdx), ruList)
      ensures productLists.items == old(productLists.items) + ruList
    {
      MapTranslations(ruList, enList);
      ghost var mapped := foodMapping;
      var tmp := 0;
      for i := 0 to |ruList|
        invariant tmp == i
        invariant foodMapping == mapped && productLists.items == old(productLists.items)
        invariant classesIdx == Enumerate(old(classesIdx), ruList[..i])
      {
        assert ruList[..i + 1][..i] == ruList[..i];
        classesIdx := classesIdx[ruList[i] := tmp];
        tmp := tmp + 1;
      }
      assert ruList[..|ruList|] == ruList;
      for i := 0 to |ruList|
        invariant foodMapping == mapped && classesIdx == Enumerate(old(classesIdx), ruList)
        invariant productLists.items == old(productLists.items) + ruList[..i]
      {
        assert ruList[..i + 1] == ruList[..i] + [ruList[i]];
        productLists.items := productLists.items + [ruList[i]];
      }
    }
  }

  /** Truncating both lists to the shorter length does not change what zip sees. */
  lemma {:induction false} ZipIntoPrefix(m: map<string, string>, values: seq<string>, keys: seq<string>)
    ensures var n := if |values| < |keys| then |values| else |keys|;
      ZipInto(m, values[..n], keys[..n]) == ZipInto(m, values, keys)
  {
    var n := if |values| < |keys| then |values| else |keys|;
    if n > 0 {
      assert values[..n][..n - 1] == values[..n - 1] && keys[..n][..n - 1] == keys[..n - 1];
    }
  }

  /** After `fill_list_on_init`, `food_mapping[en_list[i]]` is the Russian
      name at the last position below the shorter length where that English
      name occurs (a repeated key keeps the last value); keys that were not
      in the English list keep their old value. */
  lemma TranslationsLastWins(m: map<string, string>, ruList: seq<string>, enList: seq<string>, i: nat)
    requires i < |ruList| && i < |enList|
    ensures var n := if |ruList| < |enList| then |ruList| else |enList|;
      enList[i] in ZipInto(m, ruList, enList) &&
      ZipInto(m, ruList, enList)[enList[i]] == ruList[LastIndex(enList[..n], enList[i])]
  {
    var n := if |ruList| < |enList| then |ruList| else |enList|;
    ZipIntoLastWins(m, ruList, enList, n);
    assert enList[..n][i] == enList[i];
  }

  /** After `fill_list_on_init`, a category listed once has its own position
      as class index, so on a registry that starts empty and a list without
      repetitions, `product_classes_idx` inverts `product_lists`. */
  lemma ClassIndexInvertsList(ruList: seq<string>)
    requires Distinct(ruList)
    ensures Enumerate(map[], ruList).Keys == set c | c in ruList
    ensures forall i :: 0 <= i < |ruList| ==> Enumerate(map[], ruList)[ruList[i]] == i
  {
    EnumerateLastWins(map[], ruList);
    forall i | 0 <= i < |ruList| ensures Enumerate(map[], ruList)[ruList[i]] == i {
      var j := LastIndex(ruList, ruList[i]);
      assert j == i;
    }
  }

  /** The number of entries of an existing category directory, or None when
      `downloaded_images/<category>` does not exist. */
  function EntryCount(inventory: map<string, nat>, product: string): Option<nat>
  {
    if product in inventory then Some(inventory[product]) else None
  }

  /** What `DataLoader.__init__` records for one category: the full limit for
      a missing or empty directory, the shortfall for a directory with fewer
      entries than the limit, nothing otherwise. */
  function Deficit(limit: int, entries: Option<nat>): Option<int>
  {
    match entries
    case None => Some(limit)
    case Some(n) =>
      if n == 0 then Some(limit)
      else if n < limit then Some(limit - n)
      else None
  }

  /** `absent_list` as the loop of `DataLoader.__init__` leaves it. */
  function AbsentList(products: seq<string>, limit: int, inventory: map<string, nat>): Dict<string, int>
  {
    if products == [] then []
    else
      var d := AbsentList(products[..|products| - 1], limit, inventory);
      var p := products[|products| - 1];
      match Deficit(limit, EntryCount(inventory, p))
      case Some(v) => Put(d, p, v)
      case None => d
  }

  /** The deficit map holds exactly the categories that owe images, each with
      its own deficit, and each key once. */
  lemma {:induction false} AbsentListSpec(products: seq<string>, limit: int, inventory: map<string, nat>)
    ensures IsDict(AbsentList(products, limit, inventory))
    ensures forall p :: HasKey(AbsentList(products, limit, inventory), p) <==>
      p in products && Deficit(limit, EntryCount(inventory, p)).Some?
    ensures forall p :: p in products ==>
      Get(AbsentList(products, limit, inventory), p) == Deficit(limit, EntryCount(inventory, p))
  {
    if products != [] {
      var init := products[..|products| - 1];
      var last := products[|products| - 1];
      AbsentListSpec(init, limit, inventory);
      var d := AbsentList(init, limit, inventory);
      assert forall p :: p in products <==> p in init || p == last;
      match Deficit(limit, EntryCount(inventory, last))
      case Some(v) => PutKeeps(d, last, v);
      case None =>
    }
  }

  /** The four cases of the scan, for a category of `ru_list`: no directory
      and an empty directory both owe the whole limit (with limit 0 that is an
      entry of value 0), a directory with n entries, 0 < n < limit, owes
      limit - n, which lies strictly between 0 and limit, and a directory with
      at least `limit` entries (and at least one) is left out. */
  lemma AbsentListCases(products: seq<string>, limit: int, inventory: map<string, nat>, p: string)
    requires p in products
    ensures p !in inventory ==> Get(AbsentList(products, limit, inventory), p) == Some(limit)
    ensures p in inventory && inventory[p] == 0 ==> Get(AbsentList(products, limit, inventory), p) == Some(limit)
    ensures p in inventory && 0 < inventory[p] < limit ==>
      Get(AbsentList(products, limit, inventory), p) == Some(limit - inventory[p]) &&
      0 < limit - inventory[p] < limit
    ensures p in inventory && 0 < inventory[p] && limit <= inventory[p] ==>
      !HasKey(AbsentList(products, limit, inventory), p)
  {
    AbsentListSpec(products, limit, inventory);
  }

  /** Every key of `absent_list` is a category of `ru_list`. */
  lemma AbsentKeysAreCategories(products: seq<string>, limit: int, inventory: map<string, nat>)
    ensures forall p :: p in Keys(AbsentList(products, limit, inventory)) ==> p in products
  {
    AbsentListSpec(products, limit, inventory);
  }

  /** Each category is decided only by its own count: changing the counts of
      other categories does not change its entry. */
  lemma AbsentEntryIsLocal(products: seq<string>, limit: int, inv1: map<string, nat>, inv2: map<string, nat>, p: string)
    requires p in products
    requires EntryCount(inv1, p) == EntryCount(inv2, p)
    ensures Get(AbsentList(products, limit, inv1), p) == Get(AbsentList(products, limit, inv2), p)
  {
    AbsentListSpec(products, limit, inv1);
    AbsentListSpec(products, limit, inv2);
  }

  /** A later pass asks only for the remaining shortfall: when a category
      directory that had entries gains more, its deficit shrinks by what
      arrived, or the category drops out. */
  lemma ReconcileAsksOnlyShortfall(products: seq<string>, limit: int, inventory: map<string, nat>, p: string, arrived: nat)
    requires p in products && p in inventory && 0 < inventory[p] < limit
    ensures var after := inventory[p := inventory[p] + arrived];
      if inventory[p] + arrived < limit
      then Get(AbsentList(products, limit, after), p) == Some(limit - inventory[p] - arrived)
      else !HasKey(AbsentList(products, limit, after), p)
  {
    AbsentListSpec(products, limit, inventory[p := inventory[p] + arrived]);
  }

  /** With limit 5, a category with 2 files owes 3; after the provider
      delivers only 1, the next pass owes 2. */
  lemma QuotaScenario()
    ensures Get(AbsentList(["apple"], 5, map["apple" := 2]), "apple") == Some(3)
    ensures Get(AbsentList(["apple"], 5, map["apple" := 3]), "apple") == Some(2)
  {
    AbsentListCases(["apple"], 5, map["apple" := 2], "apple");
    AbsentListCases(["apple"], 5, map["apple" := 3], "apple");
  }

  /** The quota calculator. `inventory` maps each category that has a
      directory under `downloaded_images` to the number of its entries. */
  class DataLoader {
    var ruList: seq<string>
    var enList: seq<string>
    var absentList: Dict<string, int>

    constructor(limit: int, ruList: seq<string>, enList: seq<string>, inventory: map<string, nat>, registry: Registry)
      modifies registry
      ensures registry.foodMapping == ZipInto(old(registry.foodMapping), ruList, enList)
      ensures registry.classesIdx == old(registry.classesIdx)
      ensures this.ruList == ruList && this.enList == enList
      ensures absentList == AbsentList(ruList, limit, inventory)
    {
      registry.MapTranslations(ruList, enList);
      this.ruList := ruList;
      this.enList := enList;
      var absent: Dict<string, int> := [];
      for i := 0 to |ruList|
        invariant absent == AbsentList(ruList[..i], limit, inventory)
      {
        var product := ruList[i];
        assert ruList[..i + 1][..i] == ruList[..i];
        if product in inventory {
          var numFiles := inventory[product];
          if numFiles == 0 {
            absent := Put(absent, product, limit);
          } else if numFiles < limit {
            absent := Put(absent, product, limit - numFiles);
          }
        } else {
          absent := Put(absent, product, limit);
        }
      }
      assert ruList[..|ruList|] == ruList;
      absentList := absent;
    }
  }
}
