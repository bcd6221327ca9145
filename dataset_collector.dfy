/** ml/dataset_collector.py: the dataset recorder. `DataCollector` labels a
    free-text description with one of the registry's categories, appends
    image rows to the train or the test table of `ml/food_dataset.db`, and
    reports statistics over the train table. */
module DatasetCollector {
  import opened Collections
  import opened Text
  import opened DataLoader
  import opened Provider

  const Unknown: string := "неизвестно"

  /** The letters of the character class `[а-я]`. */
  predicate IsRussianLower(c: char) {
    'а' <= c <= 'я'
  }

  /** Characters that count as word characters for `\b`: ASCII letters and
      digits, the underscore and the letters of the Cyrillic block. */
  predicate IsWordChar(c: char) {
    ('0' <= c <= '9') || ('A' <= c <= 'Z') || ('a' <= c <= 'z') || c == '_'
    || ('Ѐ' <= c <= 'ҁ') || ('Ҋ' <= c <= 'ӿ')
  }

  /** The length of the run of word characters at the start of s. */
  function WordRun(s: string): (n: nat)
    ensures n <= |s|
    ensures forall i :: 0 <= i < n ==> IsWordChar(s[i])
    ensures n < |s| ==> !IsWordChar(s[n])
  {
    if s == [] || !IsWordChar(s[0]) then 0 else 1 + WordRun(s[1..])
  }

  /** `re.findall(r'\b[а-я]+\b', s)`: a match must start and end at a word
      boundary, so it is a whole run of word characters, and it is found
      exactly when every character of that run is in `[а-я]`. */
  function Words(s: string): (ws: seq<string>)
    ensures forall w :: w in ws ==> |w| >= 1 && forall i :: 0 <= i < |w| ==> IsRussianLower(w[i])
    decreases |s|
  {
    if s == [] then []
    else if !IsWordChar(s[0]) then Words(s[1..])
    else
      var n := WordRun(s);
      (if forall i :: 0 <= i < n ==> IsRussianLower(s[i]) then [s[..n]] else []) + Words(s[n..])
  }

  /** `food.startswith(word[:3]) and len(word) >= 3`. */
  predicate RootMatch(word: string, food: string) {
    StartsWith(food, Take(word, 3)) && |word| >= 3
  }

  /** The exact stage: the position of the first category contained in the
      lowercased description. */
  function ExactFood(foods: seq<string>, lower: string): (r: Option<nat>)
    ensures r.Some? ==> r.value < |foods| && Contains(lower, foods[r.value])
    ensures r.Some? ==> forall j :: 0 <= j < r.value ==> !Contains(lower, foods[j])
    ensures r.None? ==> forall j :: 0 <= j < |foods| ==> !Contains(lower, foods[j])
  {
    if foods == [] then None
    else if Contains(lower, foods[0]) then Some(0)
    else match ExactFood(foods[1..], lower)
      case None => None
      case Some(i) => Some(i + 1)
  }

  /** The position of the first category sharing its first three letters
      with `word`. */
  function RootOf(foods: seq<string>, word: string): (r: Option<nat>)
    ensures r.Some? ==> r.value < |foods| && RootMatch(word, foods[r.value])
    ensures r.Some? ==> forall j :: 0 <= j < r.value ==> !RootMatch(word, foods[j])
    ensures r.None? ==> forall j :: 0 <= j < |foods| ==> !RootMatch(word, foods[j])
  {
    if foods == [] then None
    else if RootMatch(word, foods[0]) then Some(0)
    else match RootOf(foods[1..], word)
      case None => None
      case Some(i) => Some(i + 1)
  }

  /** The root stage: for the first word that shares its first three letters
      with some category, the first such category. */
  function RootFood(foods: seq<string>, words: seq<string>): (r: Option<string>)
    ensures r.Some? ==> r.value in foods
  {
    if words == [] then None
    else match RootOf(foods, words[0])
      case Some(i) => Some(foods[i])
      case None => RootFood(foods, words[1..])
  }

  /** `extract_specific_food` on the category list `foods`: the first
      category contained in the lowercased description; failing that, the
      root stage; failing that, "неизвестно". */
  function SpecificFood(foods: seq<string>, description: string): string
  {
    var lower := Lower(description);
    match ExactFood(foods, lower)
    case Some(i) => foods[i]
    case None =>
      match RootFood(foods, Words(lower))
      case Some(f) => f
      case None => Unknown
  }

  /** The label is always a category or "неизвестно". */
  lemma SpecificFoodIsCategory(foods: seq<string>, description: string)
    ensures SpecificFood(foods, description) in foods || SpecificFood(foods, description) == Unknown
  {
  }

  /** The exact stage: when some category occurs in the lowercased
      description, the label is the first such category in list order. */
  lemma SpecificFoodExact(foods: seq<string>, description: string, i: nat)
    requires i < |foods| && Contains(Lower(description), foods[i])
    ensures exists k :: (0 <= k <= i && SpecificFood(foods, description) == foods[k]
      && Contains(Lower(description), foods[k])
      && forall j :: 0 <= j < k ==> !Contains(Lower(description), foods[j]))
  {
    var k := ExactFood(foods, Lower(description)).value;
    assert SpecificFood(foods, description) == foods[k];
  }

  /** Word a is the first word that shares its first three letters with
      some category. */
  predicate FirstRootWord(words: seq<string>, foods: seq<string>, a: int) {
    0 <= a < |words|
    && (exists f :: f in foods && RootMatch(words[a], f))
    && forall b, f :: 0 <= b < a && f in foods ==> !RootMatch(words[b], f)
  }

  /** When the first word matches no category, the first matching word is
      the first matching word of the rest, one position further on. */
  lemma FirstRootWordShift(foods: seq<string>, words: seq<string>)
    requires words != [] && RootOf(foods, words[0]).None?
    ensures forall a :: FirstRootWord(words, foods, a) ==> FirstRootWord(words[1..], foods, a - 1)
    ensures forall a :: FirstRootWord(words[1..], foods, a) ==> FirstRootWord(words, foods, a + 1)
  {
    var rest := words[1..];
    forall b, f | 0 <= b < 1 && f in foods ensures !RootMatch(words[b], f) {
      var c :| 0 <= c < |foods| && foods[c] == f;
    }
    forall a | FirstRootWord(words, foods, a) ensures FirstRootWord(rest, foods, a - 1) {
      assert rest[a - 1] == words[a];
      forall b, f | 0 <= b < a - 1 && f in foods ensures !RootMatch(rest[b], f) {
        assert rest[b] == words[b + 1];
      }
    }
    forall a | FirstRootWord(rest, foods, a) ensures FirstRootWord(words, foods, a + 1) {
      forall b, f | 0 <= b < a + 1 && f in foods ensures !RootMatch(words[b], f) {
        if b > 0 {
          assert words[b] == rest[b - 1];
        }
      }
    }
  }

  /** The root stage in full: it yields, for the first word that shares its
      first three letters with some category, the first such category in
      list order, and nothing when no word matches. */
  lemma {:induction false} RootFoodSpec(foods: seq<string>, words: seq<string>)
    ensures (forall a :: !FirstRootWord(words, foods, a)) ==> RootFood(foods, words).None?
    ensures (exists a :: FirstRootWord(words, foods, a)) ==>
      exists a, i :: FirstRootWord(words, foods, a) && 0 <= i < |foods| && RootFood(foods, words) == Some(foods[i])
        && RootMatch(words[a], foods[i]) && forall j :: 0 <= j < i ==> !RootMatch(words[a], foods[j])
  {
    if words != [] {
      match RootOf(foods, words[0])
      case Some(i) =>
        assert FirstRootWord(words, foods, 0);
      case None =>
        var rest := words[1..];
        RootFoodSpec(foods, rest);
        FirstRootWordShift(foods, words);
        if exists a :: FirstRootWord(words, foods, a) {
          var a :| FirstRootWord(words, foods, a);
          assert FirstRootWord(rest, foods, a - 1);
          var a', i :| FirstRootWord(rest, foods, a') && 0 <= i < |foods| && RootFood(foods, rest) == Some(foods[i])
            && RootMatch(rest[a'], foods[i]) && forall j :: 0 <= j < i ==> !RootMatch(rest[a'], foods[j]);
          assert FirstRootWord(words, foods, a' + 1);
          assert words[a' + 1] == rest[a'];
        }
    }
  }

  /** When no category occurs in the description, the label is what the
      root stage yields for the words of the lowercased description, and
      "неизвестно" when it yields nothing. */
  lemma SpecificFoodByRoot(foods: seq<string>, description: string)
    requires forall j :: 0 <= j < |foods| ==> !Contains(Lower(description), foods[j])
    ensures var root := RootFood(foods, Words(Lower(description)));
      SpecificFood(foods, description) == if root.Some? then root.value else Unknown
  {
    assert ExactFood(foods, Lower(description)).None?;
  }

  /** A row of `food_images` or `test_food_images`. `confidence` is never
      written and is left out; so is the automatic `created_at`. */
  datatype ImageRow = ImageRow(imagePath: string, userDescription: string, predictedClass: string,
                               verified: bool, userId: int)

  /** The number of rows labelled c. */
  function ClassCount(rows: seq<ImageRow>, c: string): nat
  {
    CountIf(rows, (r: ImageRow) => r.predictedClass == c)
  }

  /** `ml/food_dataset.db`: whether the file exists, and its two image tables. */
  class DatasetDb {
    var present: bool
    var foodImages: seq<ImageRow>
    var testFoodImages: seq<ImageRow>

    constructor(present: bool, foodImages: seq<ImageRow>, testFoodImages: seq<ImageRow>)
      requires present || (foodImages == [] && testFoodImages == [])
      ensures this.present == present && this.foodImages == foodImages && this.testFoodImages == testFoodImages
    {
      this.present := present;
      this.foodImages := foodImages;
      this.testFoodImages := testFoodImages;
    }

    /** The table a `train_flag` selects: `food_images` for true,
        `test_food_images` for false. */
    function Table(train: bool): seq<ImageRow>
      reads this
    {
      if train then foodImages else testFoodImages
    }

    /** `sqlite3.connect` followed by `create_tables`: the file is created if
        missing, and CREATE TABLE IF NOT EXISTS keeps existing rows. */
    method ConnectAndCreateTables()
      modifies this
      ensures present
      ensures old(present) ==> foodImages == old(foodImages) && testFoodImages == old(testFoodImages)
      ensures !old(present) ==> foodImages == [] && testFoodImages == []
    {
      if !present {
        present := true;
        foodImages := [];
        testFoodImages := [];
      }
    }
  }

  /** The rows `get_labeled_data` returns: `verified = TRUE OR confidence >= 0.6`,
      where confidence is always NULL, so the verified rows, as (path, class). */
  function LabeledData(rows: seq<ImageRow>): (r: seq<(string, string)>)
    ensures |r| <= |rows|
  {
    if rows == [] then []
    else
      var last := rows[|rows| - 1];
      LabeledData(rows[..|rows| - 1]) + (if last.verified then [(last.imagePath, last.predictedClass)] else [])
  }

  predicate IsVerified(r: ImageRow) {
    r.verified
  }

  function LabelPair(r: ImageRow): (string, string) {
    (r.imagePath, r.predictedClass)
  }

  /** The export is exactly the verified rows, in table order, each as its
      (path, class) pair. */
  lemma {:induction false} LabeledDataSpec(rows: seq<ImageRow>)
    ensures LabeledData(rows) == Map(Filter(rows, IsVerified), LabelPair)
  {
    if rows != [] {
      var init, last := rows[..|rows| - 1], rows[|rows| - 1];
      LabeledDataSpec(init);
      MapConcat(Filter(init, IsVerified), if last.verified then [last] else [], LabelPair);
      assert Map([last], LabelPair) == [LabelPair(last)] by {
        assert [last][..0] == [];
      }
    }
  }

  /** A table whose rows are all verified, as every row `save_food_image`
      writes is, is exported whole: one pair per row, in table order. */
  lemma {:induction false} AllVerifiedExportsAll(rows: seq<ImageRow>)
    requires forall i :: 0 <= i < |rows| ==> rows[i].verified
    ensures |LabeledData(rows)| == |rows|
    ensures forall i :: 0 <= i < |rows| ==> LabeledData(rows)[i] == (rows[i].imagePath, rows[i].predictedClass)
  {
    if rows != [] {
      var init := rows[..|rows| - 1];
      AllVerifiedExportsAll(init);
      assert LabeledData(rows) == LabeledData(init) + [LabelPair(rows[|rows| - 1])];
    }
  }

  /** `SELECT predicted_class, COUNT(*) ... GROUP BY predicted_class`, in
      order of first appearance. */
  function ByClass(rows: seq<ImageRow>): Dict<string, nat>
  {
    if rows == [] then [] else Bump(ByClass(rows[..|rows| - 1]), rows[|rows| - 1].predictedClass)
  }

  /** The count a class -> count dict holds for c, 0 when c is absent. */
  function CountOf(d: Dict<string, nat>, c: string): nat
  {
    match Get(d, c)
    case Some(n) => n
    case None => 0
  }

  /** One more row of class c in a class -> count dict: the count of c goes
      up by one, and a new class is appended with count 1. */
  function Bump(d: Dict<string, nat>, c: string): Dict<string, nat>
  {
    if d == [] then [(c, 1)]
    else if d[0].0 == c then [(c, d[0].1 + 1)] + d[1..]
    else [d[0]] + Bump(d[1..], c)
  }

  lemma {:induction false} BumpKeys(d: Dict<string, nat>, c: string)
    ensures HasKey(d, c) ==> Keys(Bump(d, c)) == Keys(d)
    ensures !HasKey(d, c) ==> Keys(Bump(d, c)) == Keys(d) + [c]
  {
    if d != [] {
      var b := Bump(d, c);
      KeysCons(d);
      KeysCons(b);
      if d[0].0 != c {
        BumpKeys(d[1..], c);
        assert b == [d[0]] + Bump(d[1..], c);
        assert b[1..] == Bump(d[1..], c);
      } else {
        assert b[1..] == d[1..];
      }
    }
  }

  lemma {:induction false} BumpGet(d: Dict<string, nat>, c: string, e: string)
    ensures e == c ==> Get(Bump(d, c), e) == Some(CountOf(d, c) + 1)
    ensures e != c ==> Get(Bump(d, c), e) == Get(d, e)
  {
    if d != [] {
      var b := Bump(d, c);
      GetCons(d, c);
      GetCons(d, e);
      GetCons(b, e);
      if d[0].0 != c {
        BumpGet(d[1..], c, e);
        assert b == [d[0]] + Bump(d[1..], c);
        assert b[1..] == Bump(d[1..], c);
        GetCons(b, c);
      } else {
        assert b == [(c, d[0].1 + 1)] + d[1..];
        assert b[1..] == d[1..];
      }
    }
  }

  lemma BumpIsDict(d: Dict<string, nat>, c: string)
    requires IsDict(d)
    ensures IsDict(Bump(d, c))
  {
    BumpKeys(d, c);
    if !HasKey(d, c) {
      var ks := Keys(d) + [c];
      forall i, j | 0 <= i < j < |ks| ensures ks[i] != ks[j] {
        if j == |d| {
          assert ks[i] == Keys(d)[i];
        } else {
          assert ks[i] == Keys(d)[i] && ks[j] == Keys(d)[j];
        }
      }
    }
  }

  lemma {:induction false} BumpTotal(d: Dict<string, nat>, c: string)
    ensures TotalCount(Bump(d, c)) == TotalCount(d) + 1
  {
    if d != [] && d[0].0 != c {
      BumpTotal(d[1..], c);
      assert Bump(d, c)[1..] == Bump(d[1..], c);
    } else if d != [] {
      assert Bump(d, c)[1..] == d[1..];
    }
  }

  datatype Stats = Stats(totalImages: nat, byClass: Dict<string, nat>, trainableSamples: nat,
                         canTrain: bool, imagesDir: string)

  /** The dictionary `get_stats` returns, from the train table alone. */
  function StatsOf(rows: seq<ImageRow>, imagesDir: string): Stats
  {
    var trainable := |LabeledData(rows)|;
    Stats(|rows|, ByClass(rows), trainable, trainable >= 20, imagesDir)
  }

  /** The sum of the counts of a class -> count dict. */
  function TotalCount(d: Dict<string, nat>): nat
  {
    if d == [] then 0 else d[0].1 + TotalCount(d[1..])
  }

  /** Every class occurring in the train table is listed once, with the
      number of its rows; no other class is listed. */
  lemma {:induction false} ByClassCounts(rows: seq<ImageRow>)
    ensures IsDict(ByClass(rows))
    ensures forall c :: ClassCount(rows, c) == 0 ==> Get(ByClass(rows), c) == None
    ensures forall c :: ClassCount(rows, c) > 0 ==> Get(ByClass(rows), c) == Some(ClassCount(rows, c))
  {
    if rows != [] {
      var init := rows[..|rows| - 1];
      var c := rows[|rows| - 1].predictedClass;
      ByClassCounts(init);
      var d := ByClass(init);
      BumpIsDict(d, c);
      assert ByClass(rows) == Bump(d, c);
      assert CountOf(d, c) == ClassCount(init, c);
      forall e ensures ClassCount(rows, e) == 0 ==> Get(ByClass(rows), e) == None
        ensures ClassCount(rows, e) > 0 ==> Get(ByClass(rows), e) == Some(ClassCount(rows, e))
      {
        BumpGet(d, c, e);
        if e == c {
          assert ClassCount(rows, e) == ClassCount(init, e) + 1;
        } else {
          assert ClassCount(rows, e) == ClassCount(init, e);
        }
      }
    }
  }

  /** The per-class counts add up to `total_images`. */
  lemma {:induction false} ByClassSum(rows: seq<ImageRow>)
    ensures TotalCount(ByClass(rows)) == |rows|
  {
    if rows != [] {
      var init := rows[..|rows| - 1];
      var c := rows[|rows| - 1].predictedClass;
      ByClassSum(init);
      BumpTotal(ByClass(init), c);
    }
  }

  /** `trainable_samples <= total_images`, `can_train` iff at least 20
      trainable rows, and rows of the test table never enter the numbers. */
  lemma StatsBounds(rows: seq<ImageRow>, imagesDir: string)
    ensures StatsOf(rows, imagesDir).trainableSamples <= StatsOf(rows, imagesDir).totalImages
    ensures StatsOf(rows, imagesDir).canTrain <==> StatsOf(rows, imagesDir).trainableSamples >= 20
    ensures TotalCount(StatsOf(rows, imagesDir).byClass) == StatsOf(rows, imagesDir).totalImages
  {
    ByClassSum(rows);
  }

  /** Appending one train row adds one to the total and to its class, and
      one to the trainable count exactly when the row is verified. */
  lemma StatsAppend(rows: seq<ImageRow>, row: ImageRow, imagesDir: string)
    ensures StatsOf(rows + [row], imagesDir).totalImages == StatsOf(rows, imagesDir).totalImages + 1
    ensures StatsOf(rows + [row], imagesDir).trainableSamples
      == StatsOf(rows, imagesDir).trainableSamples + (if row.verified then 1 else 0)
    ensures Get(StatsOf(rows + [row], imagesDir).byClass, row.predictedClass)
      == Some(ClassCount(rows, row.predictedClass) + 1)
  {
    var ext := rows + [row];
    assert ext[..|ext| - 1] == rows;
    assert LabeledData(ext) == LabeledData(rows) + (if row.verified then [(row.imagePath, row.predictedClass)] else []);
    var c := row.predictedClass;
    assert ByClass(ext) == Bump(ByClass(rows), c);
    ByClassCounts(rows);
    assert CountOf(ByClass(rows), c) == ClassCount(rows, c);
    BumpGet(ByClass(rows), c, c);
  }

  /** The row `save_food_image` appends. */
  function SavedRow(imagesDir: string, path: string, desc: string, userId: int, foods: seq<string>): ImageRow {
    ImageRow(JoinPath(imagesDir, path), desc, SpecificFood(foods, desc), true, userId)
  }

  class DataCollector {
    /** `self.specific_foods = product_lists`: the registry's list object. */
    const specificFoods: PyList
    const imagesDir: string
    const dbPath: string
    const db: DatasetDb

    /** `DataCollector()`: creates `collected_images` and opens, and so
        creates, the database file with its tables. */
    constructor(mlDir: string, registry: Registry, db: DatasetDb, disk: Disk)
      modifies db, disk
      ensures specificFoods == registry.productLists
      ensures imagesDir == JoinPath(mlDir, "collected_images") && dbPath == JoinPath(mlDir, "food_dataset.db")
      ensures this.db == db && db.present
      ensures old(db.present) ==> db.foodImages == old(db.foodImages) && db.testFoodImages == old(db.testFoodImages)
      ensures !old(db.present) ==> db.foodImages == [] && db.testFoodImages == []
      ensures disk.dirs == old(disk.dirs) + {JoinPath(mlDir, "collected_images")}
    {
      specificFoods := registry.productLists;
      imagesDir := JoinPath(mlDir, "collected_images");
      dbPath := JoinPath(mlDir, "food_dataset.db");
      this.db := db;
      new;
      disk.MakeDirs(imagesDir);
      db.ConnectAndCreateTables();
    }

    /** `save_food_image(train_flag, path, image_bytes, desc, user_id)`: the
        decoding of `image_bytes` may fail, which is only logged, so the
        bytes do not affect the outcome. One row goes to `food_images` when
        `train_flag` holds and to `test_food_images` otherwise. */
    method SaveFoodImage(trainFlag: bool, path: string, imageBytes: seq<bv8>, desc: string, userId: int)
      returns (food: string)
      requires db.present
      modifies db
      ensures db.present
      ensures food == SavedRow(imagesDir, path, desc, userId, specificFoods.items).predictedClass
      ensures db.Table(trainFlag) == old(db.Table(trainFlag)) + [SavedRow(imagesDir, path, desc, userId, specificFoods.items)]
      ensures db.Table(!trainFlag) == old(db.Table(!trainFlag))
    {
      var imagePath := JoinPath(imagesDir, path);
      var specificFood := SpecificFood(specificFoods.items, desc);
      var row := ImageRow(imagePath, desc, specificFood, true, userId);
      if !trainFlag {
        db.testFoodImages := db.testFoodImages + [row];
      } else {
        db.foodImages := db.foodImages + [row];
      }
      food := specificFood;
    }

    /** `get_labeled_data()`: the verified rows of the train table. */
    method GetLabeledData() returns (rows: seq<(string, string)>)
      ensures rows == Map(Filter(db.foodImages, IsVerified), LabelPair)
      ensures |rows| <= |db.foodImages|
    {
      rows := LabeledData(db.foodImages);
      LabeledDataSpec(db.foodImages);
    }

    /** `get_stats()`. */
    method GetStats() returns (stats: Stats)
      ensures stats == StatsOf(db.foodImages, imagesDir)
      ensures stats.trainableSamples <= stats.totalImages
      ensures stats.canTrain <==> stats.trainableSamples >= 20
      ensures TotalCount(stats.byClass) == stats.totalImages
    {
      var total := |db.foodImages|;
      var byClass := ByClass(db.foodImages);
      var trainable := GetLabeledData();
      LabeledDataSpec(db.foodImages);
      stats := Stats(total, byClass, |trainable|, |trainable| >= 20, imagesDir);
      StatsBounds(db.foodImages, imagesDir);
    }
  }

  /** A saved row is verified, so saving it to the train table adds one to
      both the total and the trainable count. */
  lemma SaveMovesStats(rows: seq<ImageRow>, imagesDir: string, path: string, desc: string, userId: int, foods: seq<string>)
    ensures var row := SavedRow(imagesDir, path, desc, userId, foods);
      StatsOf(rows + [row], imagesDir).totalImages == |rows| + 1
      && StatsOf(rows + [row], imagesDir).trainableSamples == StatsOf(rows, imagesDir).trainableSamples + 1
  {
    StatsAppend(rows, SavedRow(imagesDir, path, desc, userId, foods), imagesDir);
  }
}
