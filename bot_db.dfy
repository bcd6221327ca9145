/** The bot's calorie store (bot/db.py): users with a daily limit, a
    product table, and a per-day history whose rows carry a running total
    and an order number. The SQLite file is modelled as three sequences of
    rows in table (rowid) order; the clock's `date.today()` is a
    parameter. */
module BotDb {
  import opened Collections
  import opened CaloriesConfig

  /** A `products` row; the uuid `id` is left out. */
  datatype ProductRow = ProductRow(caloriesPerHundred: int, productName: string)

  /** A `user_calories_history` row; the uuid `id` is left out. */
  datatype HistoryRow = HistoryRow(telegramId: int, todaysCalories: int, productName: string, orderId: int, date: string)

  /** `WHERE telegram_id = ? AND date = ?`. */
  function OfDay(telegramId: int, date: string): HistoryRow -> bool {
    (r: HistoryRow) => r.telegramId == telegramId && r.date == date
  }

  /** The rows a full scan yields for (user, day), in table order. */
  function DayRows(history: seq<HistoryRow>, telegramId: int, date: string): seq<HistoryRow> {
    Filter(history, OfDay(telegramId, date))
  }

  lemma DayRowsAppend(history: seq<HistoryRow>, row: HistoryRow, telegramId: int, date: string)
    ensures DayRows(history + [row], telegramId, date)
      == DayRows(history, telegramId, date) + (if row.telegramId == telegramId && row.date == date then [row] else [])
  {
    assert (history + [row])[..|history|] == history;
  }

  /** `cursor.fetchone()` after that SELECT: the first row of the day. */
  function FirstOfDay(history: seq<HistoryRow>, telegramId: int, date: string): Option<HistoryRow> {
    var rows := DayRows(history, telegramId, date);
    if rows == [] then None else Some(rows[0])
  }

  /** The row that the day's most recent entry should build on: the last one. */
  function LastOfDay(history: seq<HistoryRow>, telegramId: int, date: string): Option<HistoryRow> {
    var rows := DayRows(history, telegramId, date);
    if rows == [] then None else Some(rows[|rows| - 1])
  }

  /** The row `add_calories_for_today` inserts on top of a fetched row: the
      fetched total plus the amount and the next order number, or the amount
      alone with order number 1 when the day is empty. */
  function NextRow(prev: Option<HistoryRow>, telegramId: int, amount: int, product: string, date: string): (r: HistoryRow)
    ensures r.telegramId == telegramId && r.date == date && r.productName == product
    ensures prev.None? ==> r.todaysCalories == amount && r.orderId == 1
    ensures prev.Some? ==> r.todaysCalories == prev.value.todaysCalories + amount && r.orderId == prev.value.orderId + 1
  {
    match prev
    case None => HistoryRow(telegramId, amount, product, 1, date)
    case Some(row) => HistoryRow(telegramId, row.todaysCalories + amount, product, row.orderId + 1, date)
  }

  /** `add_calories_for_today` as written: it builds on the FIRST row of the
      day, since the SELECT has no ORDER BY and SQLite scans in rowid order. */
  function AddAsWritten(history: seq<HistoryRow>, telegramId: int, amount: int, product: string, date: string): seq<HistoryRow> {
    history + [NextRow(FirstOfDay(history, telegramId, date), telegramId, amount, product, date)]
  }

  /** The evidently intended `add_calories_for_today`: it builds on the
      latest row of the day. */
  function AddLatest(history: seq<HistoryRow>, telegramId: int, amount: int, product: string, date: string): seq<HistoryRow> {
    history + [NextRow(LastOfDay(history, telegramId, date), telegramId, amount, product, date)]
  }

  /** Three entries of 100, 200 and 300 on one day: as written, the third
      builds on the first row again, so the day's last row reads 400 with
      order number 2 instead of 600 with order number 3. */
  lemma FirstRowCounterexample(telegramId: int, date: string)
    ensures var h1 := AddAsWritten([], telegramId, 100, "a", date);
      var h2 := AddAsWritten(h1, telegramId, 200, "b", date);
      var h3 := AddAsWritten(h2, telegramId, 300, "c", date);
      |h3| == 3 && h3[2].todaysCalories == 400 && h3[2].orderId == 2
  {
    var h1 := AddAsWritten([], telegramId, 100, "a", date);
    DayRowsAppend([], h1[0], telegramId, date);
    var h2 := AddAsWritten(h1, telegramId, 200, "b", date);
    DayRowsAppend(h1, h2[1], telegramId, date);
    assert DayRows(h1, telegramId, date) == [h1[0]];
    assert DayRows(h2, telegramId, date)[0] == h1[0];
  }

  /** Entries (amount, product) added one after the other with the intended
      operation. */
  function AddAllLatest(history: seq<HistoryRow>, telegramId: int, date: string, entries: seq<(int, string)>): seq<HistoryRow>
  {
    if entries == [] then history
    else
      var e := entries[|entries| - 1];
      AddLatest(AddAllLatest(history, telegramId, date, entries[..|entries| - 1]), telegramId, date := date, amount := e.0, product := e.1)
  }

  function Amounts(entries: seq<(int, string)>): int {
    if entries == [] then 0 else Amounts(entries[..|entries| - 1]) + entries[|entries| - 1].0
  }

  /** The running total and order number a day starts from. */
  function Base(history: seq<HistoryRow>, telegramId: int, date: string): (int, int) {
    match LastOfDay(history, telegramId, date)
    case None => (0, 0)
    case Some(r) => (r.todaysCalories, r.orderId)
  }

  /** With the intended operation, the day's latest row holds the running
      total of everything added that day and counts the entries. */
  lemma {:induction false} LatestRowTotals(history: seq<HistoryRow>, telegramId: int, date: string, entries: seq<(int, string)>)
    requires entries != []
    ensures var last := LastOfDay(AddAllLatest(history, telegramId, date, entries), telegramId, date);
      last.Some?
      && last.value.todaysCalories == Base(history, telegramId, date).0 + Amounts(entries)
      && last.value.orderId == Base(history, telegramId, date).1 + |entries|
  {
    var init := entries[..|entries| - 1];
    var e := entries[|entries| - 1];
    var before := AddAllLatest(history, telegramId, date, init);
    var row := NextRow(LastOfDay(before, telegramId, date), telegramId, e.0, e.1, date);
    DayRowsAppend(before, row, telegramId, date);
    if init != [] {
      LatestRowTotals(history, telegramId, date, init);
    } else {
      assert before == history;
    }
  }

  /** A [product_name, todays_calories] pair of `get_today_calories`. */
  function Pair(r: HistoryRow): (string, int) {
    (r.productName, r.todaysCalories)
  }

  /** The outcome of the day's SELECT in `get_today_calories`: nothing when
      the day is empty, otherwise one pair per row. */
  function TodayReport(history: seq<HistoryRow>, telegramId: int, date: string): Option<seq<(string, int)>> {
    var rows := DayRows(history, telegramId, date);
    if rows == [] then None else Some(Map(rows, Pair))
  }

  /** Right after the store's entry, the day's report gains one pair: the
      product and the total it wrote, the first row's total plus the
      amount. */
  lemma ReportAfterAdd(history: seq<HistoryRow>, telegramId: int, amount: int, product: string, date: string)
    ensures var report := TodayReport(AddAsWritten(history, telegramId, amount, product, date), telegramId, date);
      report.Some?
      && |report.value| == |DayRows(history, telegramId, date)| + 1
      && report.value[|report.value| - 1] == (product, match FirstOfDay(history, telegramId, date)
                                                       case None => amount
                                                       case Some(r) => r.todaysCalories + amount)
  {
    var row := NextRow(FirstOfDay(history, telegramId, date), telegramId, amount, product, date);
    var rows := DayRows(history, telegramId, date);
    DayRowsAppend(history, row, telegramId, date);
    MapAt(rows + [row], Pair, |rows|);
  }

  /** The report is empty exactly when the user has no row that day, and
      otherwise lists the day's rows in table order. */
  lemma TodayReportSpec(history: seq<HistoryRow>, telegramId: int, date: string)
    ensures TodayReport(history, telegramId, date).None? <==>
      forall r :: r in history ==> !(r.telegramId == telegramId && r.date == date)
    ensures TodayReport(history, telegramId, date).Some? ==>
      var rows := DayRows(history, telegramId, date);
      |TodayReport(history, telegramId, date).value| == |rows|
      && forall i :: 0 <= i < |rows| ==>
           TodayReport(history, telegramId, date).value[i] == (rows[i].productName, rows[i].todaysCalories)
  {
    var rows := DayRows(history, telegramId, date);
    FilterComplete(history, OfDay(telegramId, date));
    if rows != [] {
      assert OfDay(telegramId, date)(rows[0]);
      forall i | 0 <= i < |rows| ensures Map(rows, Pair)[i] == (rows[i].productName, rows[i].todaysCalories) {
        MapAt(rows, Pair, i);
      }
    }
  }

  /** `get_products_info`: one [product_name, calories_per_hundread] pair
      per product row. */
  function ProductPair(p: ProductRow): (string, int) {
    (p.productName, p.caloriesPerHundred)
  }

  /** A `Database`: the path it was given and the tables of that file. */
  class BotDatabase {
    const dbPath: string
    var tablesExist: bool
    var config: seq<ConfigRow>
    var products: seq<ProductRow>
    var history: seq<HistoryRow>

    /** The UNIQUE constraint, and no rows without tables. */
    ghost predicate Valid()
      reads this
    {
      UniqueUsers(config) && (!tablesExist ==> config == [] && products == [] && history == [])
    }

    /** `Database(db_path)`: only stores the path; the file may already
        hold tables from an earlier run. */
    constructor(dbPath: string, tablesExist: bool, config: seq<ConfigRow>, products: seq<ProductRow>, history: seq<HistoryRow>)
      requires UniqueUsers(config) && (!tablesExist ==> config == [] && products == [] && history == [])
      ensures Valid()
      ensures this.dbPath == dbPath && this.tablesExist == tablesExist
      ensures this.config == config && this.products == products && this.history == history
    {
      this.dbPath := dbPath;
      this.tablesExist := tablesExist;
      this.config := config;
      this.products := products;
      this.history := history;
    }

    /** `init_db`: CREATE TABLE IF NOT EXISTS for the three tables, so the
        rows of an existing file stay as they are. */
    method InitDb()
      requires Valid()
      modifies this
      ensures Valid() && tablesExist
      ensures config == old(config) && products == old(products) && history == old(history)
    {
      tablesExist := true;
    }

    /** `add_user`. */
    method AddUser(telegramId: int) returns (err: Option<SqlError>)
      requires Valid()
      modifies this
      ensures Valid() && tablesExist == old(tablesExist)
      ensures products == old(products) && history == old(history)
      ensures !tablesExist ==> err == Some(NoSuchTable) && config == old(config)
      ensures tablesExist && HasUser(old(config), telegramId) ==> err == Some(IntegrityError) && config == old(config)
      ensures tablesExist && !HasUser(old(config), telegramId) ==> err == None && config == old(config) + [NewUser(telegramId)]
    {
      if !tablesExist {
        return Some(NoSuchTable);
      }
      InsertUserSpec(config, telegramId);
      var inserted := InsertUser(config, telegramId);
      if inserted.Err? {
        err := Some(inserted.error);
      } else {
        config := inserted.value;
        err := None;
      }
    }

    /** `check_user_exists`: whether `fetchone` finds a row. */
    method CheckUserExists(telegramId: int) returns (r: SqlResult<bool>)
      ensures !tablesExist ==> r == Err(NoSuchTable)
      ensures tablesExist ==> r.Ok? && (r.value <==> HasUser(config, telegramId))
    {
      if !tablesExist {
        return Err(NoSuchTable);
      }
      var found := false;
      var i := 0;
      while i < |config| && !found
        invariant 0 <= i <= |config|
        invariant found <==> exists j :: 0 <= j < i && config[j].telegramId == telegramId
      {
        found := config[i].telegramId == telegramId;
        i := i + 1;
      }
      r := Ok(found);
    }

    /** `get_today_calories`: the day's rows, copied pair by pair. */
    method GetTodayCalories(telegramId: int, today: string) returns (r: SqlResult<Option<seq<(string, int)>>>)
      ensures !tablesExist ==> r == Err(NoSuchTable)
      ensures tablesExist ==> r == Ok(TodayReport(history, telegramId, today))
    {
      if !tablesExist {
        return Err(NoSuchTable);
      }
      var rows := DayRows(history, telegramId, today);
      var report: seq<(string, int)> := [];
      if rows != [] {
        for k := 0 to |rows|
          invariant report == Map(rows[..k], Pair)
        {
          report := report + [(rows[k].productName, rows[k].todaysCalories)];
          MapStep(rows, Pair, k);
        }
        assert rows[..|rows|] == rows;
        r := Ok(Some(report));
      } else {
        r := Ok(None);
      }
    }

    /** `set_daily_calories`. */
    method SetDailyCalories(telegramId: int, daily: int) returns (err: Option<SqlError>)
      requires Valid()
      modifies this
      ensures Valid() && tablesExist == old(tablesExist)
      ensures products == old(products) && history == old(history)
      ensures !tablesExist ==> err == Some(NoSuchTable) && config == old(config)
      ensures tablesExist ==> err == None && config == UpdateDaily(old(config), telegramId, daily)
    {
      if !tablesExist {
        return Some(NoSuchTable);
      }
      UpdateDailySpec(config, telegramId, daily);
      config := UpdateDaily(config, telegramId, daily);
      err := None;
    }

    /** `add_product`. */
    method AddProduct(productName: string, caloriesPerHundred: int) returns (err: Option<SqlError>)
      requires Valid()
      modifies this
      ensures Valid() && tablesExist == old(tablesExist)
      ensures config == old(config) && history == old(history)
      ensures !tablesExist ==> err == Some(NoSuchTable) && products == old(products)
      ensures tablesExist ==> err == None && products == old(products) + [ProductRow(caloriesPerHundred, productName)]
    {
      if !tablesExist {
        return Some(NoSuchTable);
      }
      products := products + [ProductRow(caloriesPerHundred, productName)];
      err := None;
    }

    /** `get_products_info`: one pair per product, in table order. */
    method GetProductsInfo() returns (r: SqlResult<seq<(string, int)>>)
      ensures !tablesExist ==> r == Err(NoSuchTable)
      ensures tablesExist ==> r.Ok? && |r.value| == |products|
      ensures tablesExist ==> forall i :: 0 <= i < |products| ==>
        r.value[i] == (products[i].productName, products[i].caloriesPerHundred)
    {
      if !tablesExist {
        return Err(NoSuchTable);
      }
      var list: seq<(string, int)> := [];
      for k := 0 to |products|
        invariant |list| == k
        invariant forall i :: 0 <= i < k ==> list[i] == (products[i].productName, products[i].caloriesPerHundred)
      {
        list := list + [(products[k].productName, products[k].caloriesPerHundred)];
      }
      r := Ok(list);
    }

    /** `add_calories_for_today`: only ever appends one history row, built
        on the first row of the day as the code stands (AddLatest is the
        corrected operation). */
    method AddCaloriesForToday(telegramId: int, amount: int, product: string, today: string)
      returns (err: Option<SqlError>)
      requires Valid()
      modifies this
      ensures Valid() && tablesExist == old(tablesExist)
      ensures config == old(config) && products == old(products)
      ensures !tablesExist ==> err == Some(NoSuchTable) && history == old(history)
      ensures tablesExist ==> err == None && history == AddAsWritten(old(history), telegramId, amount, product, today)
    {
      if !tablesExist {
        return Some(NoSuchTable);
      }
      var row := FirstOfDay(history, telegramId, today);
      if row.Some? {
        history := history + [HistoryRow(telegramId, row.value.todaysCalories + amount, product, row.value.orderId + 1, today)];
      } else {
        history := history + [HistoryRow(telegramId, amount, product, 1, today)];
      }
      err := None;
    }
  }
}
