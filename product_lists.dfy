/** The static category registry of ml/product_lists.py: the list of the 15
    categories, the category -> class-index table and the English -> Russian
    name table, plus `fill_list_on_init`, which extends them in place. */
module ProductLists {
  import opened Collections

  /** `product_lists`: the categories the classifier is trained on. */
  const InitialProductLists: seq<string> := [
    "апельсин", "болгарский перец", "говядина", "гречка", "котлета",
    "курица", "лимон", "макароны", "огурец", "помидор",
    "пюре", "салат", "тыква", "хлеб белый", "хлеб черный"
  ]

  /** `product_classes_idx`: the class index of each category. */
  const InitialClassesIdx: map<string, int> := map[
    "апельсин" := 0, "болгарский перец" := 1, "говядина" := 2, "гречка" := 3,
    "котлета" := 4, "курица" := 5, "лимон" := 6, "макароны" := 7,
    "огурец" := 8, "помидор" := 9, "пюре" := 10, "салат" := 11,
    "тыква" := 12, "хлеб белый" := 13, "хлеб черный" := 14
  ]

  /** The keys of `food_mapping`, in insertion order. */
  const EnglishNames: seq<string> := [
    "apple", "banana", "lemon", "orange", "cucumber", "tomato", "carrot",
    "pumpkin", "puree", "cutlet", "bell pepper", "potato", "onion", "cabbage",
    "lettuce", "chicken", "beef", "pork", "steak", "fish", "eggs", "cheese",
    "milk", "yogurt", "bread white", "bread black", "rice", "buckwheat", "pasta"
  ]

  /** The values of `food_mapping`, position by position. */
  const RussianNames: seq<string> := [
    "яблоко", "банан", "лимон", "апельсин", "огурец", "помидор", "морковь",
    "тыква", "пюре", "котлета", "болгарский перец", "картофель", "лук", "капуста",
    "салат", "курица", "говядина", "свинина", "стейк", "рыба", "яйца", "сыр",
    "молоко", "йогурт", "хлеб белый", "хлеб черный", "рис", "гречка", "макароны"
  ]

  /** `food_mapping`: English name -> Russian name, in insertion order. */
  function InitialFoodMapping(): (d: Dict<string, string>)
    ensures |d| == 29
  {
    Zip(EnglishNames, RussianNames)
  }

  // EnglishNames is checked in two halves and across them, which keeps each
  // check small.
  lemma EnglishHeadDistinct()
    ensures Distinct(EnglishNames[..15])
  {
  }

  lemma EnglishTailDistinct()
    ensures Distinct(EnglishNames[15..])
  {
  }

  lemma EnglishHalvesDisjoint()
    ensures forall i, j :: 0 <= i < 15 && 0 <= j < |EnglishNames| - 15 ==> EnglishNames[..15][i] != EnglishNames[15..][j]
  {
  }

  lemma EnglishNamesDistinct()
    ensures |EnglishNames| == |RussianNames| == 29
    ensures Distinct(EnglishNames)
  {
    EnglishHeadDistinct();
    EnglishTailDistinct();
    EnglishHalvesDisjoint();
    DistinctConcat(EnglishNames[..15], EnglishNames[15..]);
    assert EnglishNames[..15] + EnglishNames[15..] == EnglishNames;
  }

  // RussianNames is checked in two halves and across them, which keeps each
  // check small.
  lemma RussianHeadDistinct()
    ensures Distinct(RussianNames[..15])
  {
  }

  lemma RussianTailDistinct()
    ensures Distinct(RussianNames[15..])
  {
  }

  lemma RussianHalvesDisjoint()
    ensures forall i, j :: 0 <= i < 15 && 0 <= j < |RussianNames| - 15 ==> RussianNames[..15][i] != RussianNames[15..][j]
  {
  }

  lemma RussianNamesDistinct()
    ensures Distinct(RussianNames)
  {
    RussianHeadDistinct();
    RussianTailDistinct();
    RussianHalvesDisjoint();
    DistinctConcat(RussianNames[..15], RussianNames[15..]);
    assert RussianNames[..15] + RussianNames[15..] == RussianNames;
  }

  lemma CategoriesDistinct()
    ensures |InitialProductLists| == 15
    ensures Distinct(InitialProductLists)
  {
  }

  /** `product_classes_idx` is the inverse of `product_lists`: a bijection
      between the 15 categories and 0..14. */
  lemma ClassesIdxKeys()
    ensures InitialClassesIdx.Keys == set c | c in InitialProductLists
  {
  }

  lemma ClassesIdxPositions()
    ensures forall i :: 0 <= i < |InitialProductLists| ==>
      InitialProductLists[i] in InitialClassesIdx && InitialClassesIdx[InitialProductLists[i]] == i
  {
  }

  lemma ClassesIdxIsIndex()
    ensures InitialClassesIdx.Keys == set c | c in InitialProductLists
    ensures forall i :: 0 <= i < |InitialProductLists| ==> InitialClassesIdx[InitialProductLists[i]] == i
    ensures forall c :: c in InitialClassesIdx ==> 0 <= InitialClassesIdx[c] < 15
  {
    ClassesIdxKeys();
    ClassesIdxPositions();
    forall c | c in InitialClassesIdx ensures 0 <= InitialClassesIdx[c] < 15 {
      var i :| 0 <= i < |InitialProductLists| && InitialProductLists[i] == c;
    }
  }

  /** Every category has an English name in `food_mapping`. */
  lemma EveryCategoryTranslated()
    ensures forall c :: c in InitialProductLists ==> c in Values(InitialFoodMapping())
  {
  }

  /** The Russian -> English table obtained by swapping every item. */
  function Inverted(d: Dict<string, string>): (r: Dict<string, string>)
    ensures |r| == |d|
    ensures forall i :: 0 <= i < |d| ==> r[i] == (d[i].1, d[i].0)
  {
    seq(|d|, i requires 0 <= i < |d| => (d[i].1, d[i].0))
  }

  /** The English -> Russian table is invertible: its values are pairwise
      distinct, so swapping it gives a dict that translates each Russian name
      back to the English name it came from. */
  lemma {:induction false} FoodMappingInvertible()
    ensures IsDict(InitialFoodMapping())
    ensures IsDict(Inverted(InitialFoodMapping()))
    ensures forall i :: 0 <= i < 29 ==>
      Get(InitialFoodMapping(), EnglishNames[i]) == Some(RussianNames[i]) &&
      Get(Inverted(InitialFoodMapping()), RussianNames[i]) == Some(EnglishNames[i])
  {
    var d := InitialFoodMapping();
    var inv := Inverted(d);
    EnglishNamesDistinct();
    RussianNamesDistinct();
    assert Keys(inv) == RussianNames;
    forall i | 0 <= i < 29
      ensures Get(d, EnglishNames[i]) == Some(RussianNames[i])
      ensures Get(inv, RussianNames[i]) == Some(EnglishNames[i])
    {
      GetAt(d, i);
      GetAt(inv, i);
    }
  }

  /** A `food_mapping` key or value: a name, or, after the first loop of
      `fill_list_on_init`, a whole (key, value) item of an argument dict. */
  datatype Value = Name(s: string) | Item(key: string, val: string)

  /** A dict literal of names, as a map over Values. */
  function AsValueMap(d: Dict<string, string>): map<Value, Value>
  {
    if d == [] then map[] else AsValueMap(d[..|d| - 1])[Name(d[|d| - 1].0) := Name(d[|d| - 1].1)]
  }

  /** One pass of the first loop of `fill_list_on_init`: the view is unpacked
      into (ru, eng) and `food_mapping[eng] = ru`. */
  function UnpackStep(m: map<Value, Value>, view: Dict<string, string>): map<Value, Value>
    requires |view| == 2
  {
    m[Item(view[1].0, view[1].1) := Item(view[0].0, view[0].1)]
  }

  /** The module-level tables, which `fill_list_on_init` extends in place. */
  class StaticRegistry {
    var productLists: seq<string>
    var classesIdx: map<string, int>
    var foodMapping: map<Value, Value>

    constructor()
      ensures productLists == InitialProductLists
      ensures classesIdx == InitialClassesIdx
      ensures foodMapping == AsValueMap(InitialFoodMapping())
    {
      productLists := InitialProductLists;
      classesIdx := InitialClassesIdx;
      foodMapping := AsValueMap(InitialFoodMapping());
    }

    /** `fill_list_on_init(ru_list, eng_list)` on two dicts. Its first loop runs
        over the pair (ru_list.items(), eng_list.items()) and unpacks each view
        into two names, so it raises ValueError unless that view has exactly
        two items; for a two-item view it maps the second item to the first.
        Then every key of ru_list gets its running index, and the keys are
        appended to `product_lists` without clearing it. */
    method FillListOnInit(ruList: Dict<string, string>, engList: Dict<string, string>) returns (raised: bool)
      modifies this
      ensures raised <==> |ruList| != 2 || |engList| != 2
      ensures |ruList| != 2 ==> foodMapping == old(foodMapping)
      ensures |ruList| == 2 && |engList| != 2 ==> foodMapping == UnpackStep(old(foodMapping), ruList)
      ensures !raised ==> foodMapping == UnpackStep(UnpackStep(old(foodMapping), ruList), engList)
      ensures raised ==> productLists == old(productLists) && classesIdx == old(classesIdx)
      ensures !raised ==> classesIdx == Enumerate(old(classesIdx), Keys(ruList))
      ensures !raised ==> productLists == old(productLists) + Keys(ruList)
    {
      var views := [ruList, engList];
      for v := 0 to 2
        invariant v >= 1 ==> |ruList| == 2
        invariant v == 2 ==> |engList| == 2
        invariant productLists == old(productLists) && classesIdx == old(classesIdx)
        invariant v == 0 ==> foodMapping == old(foodMapping)
        invariant v == 1 ==> foodMapping == UnpackStep(old(foodMapping), ruList)
        invariant v == 2 ==> foodMapping == UnpackStep(UnpackStep(old(foodMapping), ruList), engList)
      {
        var items := views[v];
        if |items| != 2 {
          return true;
        }
        var ru, eng := items[0], items[1];
        foodMapping := foodMapping[Item(eng.0, eng.1) := Item(ru.0, ru.1)];
      }
      var names := Keys(ruList);
      ghost var mapped := foodMapping;
      var tmp := 0;
      for i := 0 to |names|
        invariant tmp == i
        invariant productLists == old(productLists) && foodMapping == mapped
        invariant classesIdx == Enumerate(old(classesIdx), names[..i])
      {
        assert names[..i + 1][..i] == names[..i];
        classesIdx := classesIdx[names[i] := tmp];
        tmp := tmp + 1;
      }
      assert names[..|names|] == names;
      for i := 0 to |names|
        invariant classesIdx == Enumerate(old(classesIdx), names) && foodMapping == mapped
        invariant productLists == old(productLists) + names[..i]
      {
        assert names[..i + 1] == names[..i] + [names[i]];
        productLists := productLists + [names[i]];
      }
      raised := false;
    }
  }
}
