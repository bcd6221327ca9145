/** str_utils.py: the built-in product table `PRODUCTS_DB` and
    `init_product_table`, which copies it into a calorie store. Its
    `print_daily_report` is the one in DailyReport. */
module StrUtils {
  import opened Collections
  import opened CaloriesConfig
  import opened BotDb
  import opened RootDb

  /** `PRODUCTS_DB`: calories per 100 g, in the literal's order. */
  const ProductsDb: Dict<string, int> := [
    ("Хлеб (пшеничный)", 265),
    ("Хлеб (ржаной)", 210),
    ("Молоко (2.5%)", 52),
    ("Сыр твердый", 350),
    ("Курица (филе)", 165),
    ("Говядина", 250),
    ("Свинина", 290),
    ("Яйцо куриное", 155),
    ("Картофель", 77),
    ("Рис (сухой)", 330),
    ("Гречка (сухая)", 310),
    ("Овсянка (сухая)", 350),
    ("Яблоко", 47),
    ("Банан", 95),
    ("Огурец", 15),
    ("Помидор", 20),
    ("Морковь", 41),
    ("Сахар", 400),
    ("Масло сливочное", 720),
    ("Подсолнечное масло", 899)
  ]

  /** The literal has 20 distinct names, so the dict keeps all of them,
      and every value is a positive whole number of calories. */
  lemma ProductsDbFacts()
    ensures |ProductsDb| == 20 && IsDict(ProductsDb)
    ensures forall i :: 0 <= i < |ProductsDb| ==> ProductsDb[i].1 > 0
  {
  }

  /** `db.add_product(name, calories)` stores (calories, name). */
  function RowOf(entry: (string, int)): ProductRow {
    ProductRow(entry.1, entry.0)
  }

  /** The rows a full `init_product_table` appends, in the dict's order. */
  function ProductsDbRows(): seq<ProductRow> {
    Map(ProductsDb, RowOf)
  }

  /** Row i holds the name and the calories of the dict's i-th item. */
  lemma ProductsDbRowsSpec()
    ensures |ProductsDbRows()| == 20
    ensures forall i :: 0 <= i < 20 ==>
      ProductsDbRows()[i].productName == ProductsDb[i].0
      && ProductsDbRows()[i].caloriesPerHundred == ProductsDb[i].1 > 0
  {
    ProductsDbFacts();
    forall i | 0 <= i < 20 ensures ProductsDbRows()[i] == RowOf(ProductsDb[i]) {
      MapAt(ProductsDb, RowOf, i);
    }
  }

  /** The object `init_product_table` is handed: annotated as the root
      `Database` (db.py), which has no `add_product`, while the bot's
      store (bot/db.py) has one. */
  datatype Store = RootStore(root: RootDatabase) | BotStore(bot: BotDatabase)

  /** `init_product_table(db)`: one `add_product` per `PRODUCTS_DB` item,
      in insertion order; the first exception ends the loop and is
      returned. On the root store the attribute lookup fails at once and
      nothing is written; on a bot store without tables the first INSERT
      fails and nothing is written; otherwise all 20 rows are appended. */
  method InitProductTable(store: Store) returns (err: Option<SqlError>)
    requires store.BotStore? ==> store.bot.Valid()
    modifies if store.BotStore? then {store.bot} else {}
    ensures store.RootStore? ==> err == Some(AttributeError)
    ensures store.BotStore? ==>
      (store.bot.Valid() && store.bot.tablesExist == old(store.bot.tablesExist)
       && store.bot.config == old(store.bot.config) && store.bot.history == old(store.bot.history))
    ensures store.BotStore? && !store.bot.tablesExist ==>
      err == Some(NoSuchTable) && store.bot.products == old(store.bot.products)
    ensures store.BotStore? && store.bot.tablesExist ==>
      err == None && store.bot.products == old(store.bot.products) + ProductsDbRows()
  {
    if store.RootStore? {
      return Some(AttributeError);
    }
    var db := store.bot;
    for k := 0 to |ProductsDb|
      invariant db.Valid() && db.tablesExist == old(db.tablesExist)
      invariant db.config == old(db.config) && db.history == old(db.history)
      invariant db.products == old(db.products) + Map(ProductsDb[..k], RowOf)
      invariant !db.tablesExist ==> k == 0
    {
      MapStep(ProductsDb, RowOf, k);
      err := db.AddProduct(ProductsDb[k].0, ProductsDb[k].1);
      if err.Some? {
        assert ProductsDb[..0] == [];
        return;
      }
    }
    assert ProductsDb[..|ProductsDb|] == ProductsDb;
    err := None;
  }
}
