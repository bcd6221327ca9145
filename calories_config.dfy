/** The `calories_config` table that both calorie stores (bot/db.py and
    db.py) keep with the same schema and the same statements: one row per
    Telegram user, `telegram_id` UNIQUE. Also the outcomes a statement on
    the SQLite file can have. */
module CaloriesConfig {
  import opened Collections

  /** The sqlite3 / Python exceptions the stores can raise. */
  datatype SqlError =
    | NoSuchTable     // a statement before `init_db` created the table
    | IntegrityError  // a UNIQUE constraint rejected an INSERT
    | TypeError       // a tuple row indexed by a column name
    | AttributeError  // a method the object does not have

  datatype SqlResult<T> = Ok(value: T) | Err(error: SqlError)

  /** A `calories_config` row. The uuid primary key `id` is left out. */
  datatype ConfigRow = ConfigRow(telegramId: int, dailyCalories: int, products: string)

  predicate HasUser(rows: seq<ConfigRow>, telegramId: int) {
    exists i :: 0 <= i < |rows| && rows[i].telegramId == telegramId
  }

  /** The UNIQUE constraint on `telegram_id`. */
  predicate UniqueUsers(rows: seq<ConfigRow>) {
    forall i, j :: 0 <= i < j < |rows| ==> rows[i].telegramId != rows[j].telegramId
  }

  /** The row `add_user` inserts: no daily limit yet and an empty product
      map. */
  function NewUser(telegramId: int): (r: ConfigRow)
    ensures r.telegramId == telegramId
  {
    ConfigRow(telegramId, 0, "{}")
  }

  /** `INSERT INTO calories_config ...` with a new telegram_id; a known one
      violates UNIQUE and the table stays as it was. */
  function InsertUser(rows: seq<ConfigRow>, telegramId: int): SqlResult<seq<ConfigRow>>
  {
    if HasUser(rows, telegramId) then Err(IntegrityError) else Ok(rows + [NewUser(telegramId)])
  }

  /** `UPDATE calories_config SET daily_calories = ? WHERE telegram_id = ?`. */
  function UpdateDaily(rows: seq<ConfigRow>, telegramId: int, daily: int): seq<ConfigRow>
  {
    Map(rows, Updater(telegramId, daily))
  }

  function Updater(telegramId: int, daily: int): ConfigRow -> ConfigRow {
    (row: ConfigRow) => if row.telegramId == telegramId then row.(dailyCalories := daily) else row
  }

  /** A first `add_user` appends exactly the new row; a second one for the
      same id is rejected. Either way the constraint keeps holding, and the
      user is known afterwards. */
  lemma InsertUserSpec(rows: seq<ConfigRow>, telegramId: int)
    requires UniqueUsers(rows)
    ensures HasUser(rows, telegramId) <==> InsertUser(rows, telegramId).Err?
    ensures InsertUser(rows, telegramId).Err? ==> InsertUser(rows, telegramId).error == IntegrityError
    ensures InsertUser(rows, telegramId).Ok? ==>
      var after := InsertUser(rows, telegramId).value;
      UniqueUsers(after) && HasUser(after, telegramId) && after[..|rows|] == rows
      && after[|rows|] == ConfigRow(telegramId, 0, "{}")
  {
    if !HasUser(rows, telegramId) {
      var after := rows + [NewUser(telegramId)];
      assert after[|rows|].telegramId == telegramId;
      assert after[..|rows|] == rows;
    }
  }

  /** The update touches only `daily_calories`, and only on the rows of that
      user; the constraint keeps holding. */
  lemma UpdateDailySpec(rows: seq<ConfigRow>, telegramId: int, daily: int)
    ensures var after := UpdateDaily(rows, telegramId, daily);
      |after| == |rows|
      && (forall i :: 0 <= i < |rows| ==>
            after[i].telegramId == rows[i].telegramId && after[i].products == rows[i].products
            && after[i].dailyCalories == (if rows[i].telegramId == telegramId then daily else rows[i].dailyCalories))
      && (UniqueUsers(rows) ==> UniqueUsers(after))
      && (HasUser(after, telegramId) <==> HasUser(rows, telegramId))
  {
    var after := UpdateDaily(rows, telegramId, daily);
    forall i | 0 <= i < |rows| ensures after[i] == Updater(telegramId, daily)(rows[i]) {
      MapAt(rows, Updater(telegramId, daily), i);
    }
    if rows != [] {
      MapAt(rows, Updater(telegramId, daily), 0);
    }
    if HasUser(rows, telegramId) {
      var i :| 0 <= i < |rows| && rows[i].telegramId == telegramId;
      assert after[i].telegramId == telegramId;
    }
    if HasUser(after, telegramId) {
      var i :| 0 <= i < |after| && after[i].telegramId == telegramId;
      assert rows[i].telegramId == telegramId;
    }
  }

  /** An unknown id changes nothing. */
  lemma UpdateUnknownIsNoOp(rows: seq<ConfigRow>, telegramId: int, daily: int)
    requires !HasUser(rows, telegramId)
    ensures UpdateDaily(rows, telegramId, daily) == rows
  {
    UpdateDailySpec(rows, telegramId, daily);
    var after := UpdateDaily(rows, telegramId, daily);
    forall i | 0 <= i < |rows| ensures after[i] == rows[i] {
      assert rows[i].telegramId != telegramId;
    }
  }
}
