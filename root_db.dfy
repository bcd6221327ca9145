/** The older calorie store (db.py): the same `calories_config` table as the
    bot's store, and a `user_calories_history` table with one UNIQUE row per
    user that no method of this store writes. */
module RootDb {
  import opened Collections
  import opened CaloriesConfig

  /** A row of this store's `user_calories_history`; the uuid `id` is left
      out. */
  datatype TotalRow = TotalRow(telegramId: int, todaysCalories: int)

  /** What `get_user_calories_per_day` promises: the user's limit and
      product map, or nothing for an unknown user. */
  datatype DailyConfig = DailyConfig(dailyCalories: int, products: string)

  /** `get_user_calories_per_day` as written: the connection has no row
      factory, so `fetchone` yields a tuple and `row['daily_calories']`
      raises TypeError for every known user. */
  function CaloriesPerDay(config: seq<ConfigRow>, telegramId: int): SqlResult<Option<DailyConfig>>
  {
    if HasUser(config, telegramId) then Err(TypeError) else Ok(None)
  }

  /** No user ever gets a value back: the lookup either finds nothing or
      raises. */
  lemma CaloriesPerDayNeverAnswers(config: seq<ConfigRow>, telegramId: int)
    ensures CaloriesPerDay(config, telegramId) != Ok(None) ==> CaloriesPerDay(config, telegramId) == Err(TypeError)
    ensures CaloriesPerDay(config, telegramId) == Ok(None) <==> !HasUser(config, telegramId)
  {
  }

  class RootDatabase {
    const dbPath: string
    var tablesExist: bool
    var config: seq<ConfigRow>
    var totals: seq<TotalRow>

    ghost predicate Valid()
      reads this
    {
      UniqueUsers(config) && (!tablesExist ==> config == [] && totals == [])
    }

    /** `Database(db_path)`: only stores the path; the file may already
        hold tables from an earlier run. */
    constructor(dbPath: string, tablesExist: bool, config: seq<ConfigRow>, totals: seq<TotalRow>)
      requires UniqueUsers(config) && (!tablesExist ==> config == [] && totals == [])
      ensures Valid()
      ensures this.dbPath == dbPath && this.tablesExist == tablesExist
      ensures this.config == config && this.totals == totals
    {
      this.dbPath := dbPath;
      this.tablesExist := tablesExist;
      this.config := config;
      this.totals := totals;
    }

    /** `init_db`: CREATE TABLE IF NOT EXISTS, so calling it again keeps
        every existing row. */
    method InitDb()
      requires Valid()
      modifies this
      ensures Valid() && tablesExist
      ensures config == old(config) && totals == old(totals)
    {
      tablesExist := true;
    }

    /** `get_user_calories_per_day`. */
    method GetUserCaloriesPerDay(telegramId: int) returns (r: SqlResult<Option<DailyConfig>>)
      ensures !tablesExist ==> r == Err(NoSuchTable)
      ensures tablesExist ==> r == CaloriesPerDay(config, telegramId)
    {
      if !tablesExist {
        return Err(NoSuchTable);
      }
      r := CaloriesPerDay(config, telegramId);
    }

    /** `add_user`. */
    method AddUser(telegramId: int) returns (err: Option<SqlError>)
      requires Valid()
      modifies this
      ensures Valid() && tablesExist == old(tablesExist) && totals == old(totals)
      ensures !tablesExist ==> err == Some(NoSuchTable) && config == old(config)
      ensures tablesExist && HasUser(old(config), telegramId) ==> err == Some(IntegrityError) && config == old(config)
      ensures tablesExist && !HasUser(old(config), telegramId) ==> err == None && config == old(config) + [NewUser(telegramId)]
    {
      if !tablesExist {
        return Some(NoSuchTable);
      }
      InsertUserSpec(config, telegramId);
      var inserted := InsertUser(config, telegramId);
      if inserted.Err? {
        err := Some(inserted.error);
      } else {
        config := inserted.value;
        err := None;
      }
    }

    /** `check_user_exists`: whether `fetchone` finds a row. */
    method CheckUserExists(telegramId: int) returns (r: SqlResult<bool>)
      ensures !tablesExist ==> r == Err(NoSuchTable)
      ensures tablesExist ==> r.Ok? && (r.value <==> HasUser(config, telegramId))
    {
      if !tablesExist {
        return Err(NoSuchTable);
      }
      var found := false;
      var i := 0;
      while i < |config| && !found
        invariant 0 <= i <= |config|
        invariant found <==> exists j :: 0 <= j < i && config[j].telegramId == telegramId
      {
        found := config[i].telegramId == telegramId;
        i := i + 1;
      }
      r := Ok(found);
    }

    /** `set_daily_calories`. */
    method SetDailyCalories(telegramId: int, daily: int) returns (err: Option<SqlError>)
      requires Valid()
      modifies this
      ensures Valid() && tablesExist == old(tablesExist) && totals == old(totals)
      ensures !tablesExist ==> err == Some(NoSuchTable) && config == old(config)
      ensures tablesExist ==> err == None && config == UpdateDaily(old(config), telegramId, daily)
    {
      if !tablesExist {
        return Some(NoSuchTable);
      }
      UpdateDailySpec(config, telegramId, daily);
      config := UpdateDaily(config, telegramId, daily);
      err := None;
    }
  }
}
