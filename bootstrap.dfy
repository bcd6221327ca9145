/** The `__main__` block of main.py: which dataset jobs run before the bot
    starts, decided from whether the trained model file exists, whether
    `ml/food_dataset.db` exists, the deficit map of the data loader and
    the statistics of the collector. The jobs themselves are recorded as
    events: `validate_images` and `add_files_to_database` are imported
    from modules that do not define them, and the download and init jobs
    are modelled on their own in ImageLoader and DatasetInit. */
module Bootstrap {
  import opened Collections
  import opened Text
  import opened Provider
  import DL = DataLoader
  import opened DatasetCollector

  datatype Event =
    | InitBotDb                                  // db.init_db()
    | ValidateImages                             // validate_images()
    | DownloadAbsent(absent: Dict<string, int>)  // download_absent_data_for_classes(absent_list)
    | AddFilesToDatabase                         // add_files_to_database(new_files_dict, data_collector)
    | DownloadTrain(limit: int)                  // download_train_data_for_classes(limit)
    | InitDatabase                               // init_database(data_collector)
    | RunBot                                     // main()

  /** `if not exist_model: validate_images()`. */
  function Validation(existModel: bool): seq<Event> {
    if existModel then [] else [ValidateImages]
  }

  /** The if / elif / elif chain on the deficit map, the database file and
      the number of train images. */
  function DatasetJobs(existDb: bool, absent: Dict<string, int>, totalImages: nat, limit: int): seq<Event> {
    if |absent| > 0 && existDb then [DownloadAbsent(absent), AddFilesToDatabase]
    else if !existDb then [DownloadTrain(limit), InitDatabase]
    else if existDb && totalImages == 0 then [InitDatabase]
    else []
  }

  /** Everything the block does, in order. */
  function Plan(existModel: bool, existDb: bool, absent: Dict<string, int>, totalImages: nat, limit: int): seq<Event> {
    [InitBotDb] + Validation(existModel) + DatasetJobs(existDb, absent, totalImages, limit) + [RunBot]
  }

  function Is(e: Event): Event -> bool {
    (x: Event) => x == e
  }

  /** The occurrences of e. */
  function Count(events: seq<Event>, e: Event): nat {
    CountIf(events, Is(e))
  }

  /** `Count` counts the occurrences: it is positive exactly for the
      events that occur. */
  lemma CountPositive(events: seq<Event>, e: Event)
    ensures Count(events, e) > 0 <==> e in events
  {
    CountIfPositive(events, Is(e));
  }

  /** The occurrences of e in the plan are those of the four parts. */
  lemma PlanCount(existModel: bool, existDb: bool, absent: Dict<string, int>, totalImages: nat, limit: int, e: Event)
    ensures Count(Plan(existModel, existDb, absent, totalImages, limit), e)
         == Count([InitBotDb], e) + Count(Validation(existModel), e)
            + Count(DatasetJobs(existDb, absent, totalImages, limit), e) + Count([RunBot], e)
  {
    var v, j := Validation(existModel), DatasetJobs(existDb, absent, totalImages, limit);
    CountIfConcat([InitBotDb], v, Is(e));
    CountIfConcat([InitBotDb] + v, j, Is(e));
    CountIfConcat([InitBotDb] + v + j, [RunBot], Is(e));
  }

  /** Images are validated once when no trained model exists, and never
      otherwise, whatever the dataset branch does; the validation comes
      right after the bot's tables are created. */
  lemma ValidationIffNoModel(existModel: bool, existDb: bool, absent: Dict<string, int>, totalImages: nat, limit: int)
    ensures Count(Plan(existModel, existDb, absent, totalImages, limit), ValidateImages) == if existModel then 0 else 1
    ensures !existModel ==> Plan(existModel, existDb, absent, totalImages, limit)[1] == ValidateImages
  {
    PlanCount(existModel, existDb, absent, totalImages, limit, ValidateImages);
    var j := DatasetJobs(existDb, absent, totalImages, limit);
    assert Count(j, ValidateImages) == 0 by {
      CountPositive(j, ValidateImages);
    }
  }

  /** A non-empty deficit map with an existing database downloads the
      missing images and records them; neither the full download nor
      `init_database` runs. */
  lemma AbsentBranch(existModel: bool, absent: Dict<string, int>, totalImages: nat, limit: int)
    requires |absent| > 0
    ensures var p := Plan(existModel, true, absent, totalImages, limit);
      p == [InitBotDb] + Validation(existModel) + [DownloadAbsent(absent), AddFilesToDatabase, RunBot]
      && DownloadTrain(limit) !in p && InitDatabase !in p
  {
    var p := Plan(existModel, true, absent, totalImages, limit);
    assert p == [InitBotDb] + Validation(existModel) + [DownloadAbsent(absent), AddFilesToDatabase, RunBot];
  }

  /** Without the database file the full download with the configured
      limit runs, followed by `init_database`, whatever the deficit map and
      the count say. */
  lemma FullDownloadBranch(existModel: bool, absent: Dict<string, int>, totalImages: nat, limit: int)
    ensures Plan(existModel, false, absent, totalImages, limit)
         == [InitBotDb] + Validation(existModel) + [DownloadTrain(limit), InitDatabase, RunBot]
  {
    var p := Plan(existModel, false, absent, totalImages, limit);
    assert p == [InitBotDb] + Validation(existModel) + [DownloadTrain(limit), InitDatabase, RunBot];
  }

  /** An existing database with no deficit and no train images is only
      initialised from the image folders. */
  lemma InitOnlyBranch(existModel: bool, limit: int)
    ensures Plan(existModel, true, [], 0, limit) == [InitBotDb] + Validation(existModel) + [InitDatabase, RunBot]
  {
    assert Plan(existModel, true, [], 0, limit) == [InitBotDb] + Validation(existModel) + [InitDatabase, RunBot];
  }

  /** An existing database with no deficit and some train images needs no
      dataset job at all. */
  lemma NoDatasetJob(existModel: bool, totalImages: nat, limit: int)
    requires totalImages > 0
    ensures Plan(existModel, true, [], totalImages, limit) == [InitBotDb] + Validation(existModel) + [RunBot]
  {
    assert Plan(existModel, true, [], totalImages, limit) == [InitBotDb] + Validation(existModel) + [RunBot];
  }

  /** The dataset jobs start `init_database` once when the database file is
      missing or it exists with no deficit and no train images, and
      otherwise not at all. */
  lemma JobsInitCount(existDb: bool, absent: Dict<string, int>, totalImages: nat, limit: int)
    ensures Count(DatasetJobs(existDb, absent, totalImages, limit), InitDatabase)
         == if !existDb || (|absent| == 0 && totalImages == 0) then 1 else 0
  {
    var j := DatasetJobs(existDb, absent, totalImages, limit);
    if |j| == 2 {
      var head := j[..|j| - 1];
      assert head[..0] == [];
      assert Count(head, InitDatabase) == if j[0] == InitDatabase then 1 else 0;
      assert Count(j, InitDatabase) == Count(head, InitDatabase) + if j[1] == InitDatabase then 1 else 0;
    } else if |j| == 1 {
      assert j[..0] == [];
    }
  }

  /** The elif chain stops at the deficit branch: a non-empty deficit map
      with an empty train table does not initialise the database. */
  lemma DeficitShadowsInit(existModel: bool, existDb: bool, absent: Dict<string, int>, limit: int)
    requires |absent| > 0 && existDb
    ensures Count(Plan(existModel, existDb, absent, 0, limit), InitDatabase) == 0
  {
    PlanCount(existModel, existDb, absent, 0, limit, InitDatabase);
    CountPositive(Validation(existModel), InitDatabase);
    JobsInitCount(existDb, absent, 0, limit);
  }

  /** `init_database` runs at most once, and exactly when the database
      file is missing or it exists with no deficit and no train images. */
  lemma InitDatabaseWhen(existModel: bool, existDb: bool, absent: Dict<string, int>, totalImages: nat, limit: int)
    ensures Count(Plan(existModel, existDb, absent, totalImages, limit), InitDatabase)
         == if !existDb || (|absent| == 0 && totalImages == 0) then 1 else 0
  {
    PlanCount(existModel, existDb, absent, totalImages, limit, InitDatabase);
    CountPositive(Validation(existModel), InitDatabase);
    JobsInitCount(existDb, absent, totalImages, limit);
  }

  /** Once the database file exists, the full download is never started,
      with any limit. */
  lemma ExistingDbNeverDownloadsAll(existModel: bool, absent: Dict<string, int>, totalImages: nat, limit: int)
    ensures forall e :: e in Plan(existModel, true, absent, totalImages, limit) ==> !e.DownloadTrain?
  {
    var p := Plan(existModel, true, absent, totalImages, limit);
    forall e | e in p
      ensures !e.DownloadTrain?
    {
      PlanCount(existModel, true, absent, totalImages, limit, e);
      CountPositive(Validation(existModel), e);
      CountPositive(DatasetJobs(true, absent, totalImages, limit), e);
      CountPositive(p, e);
    }
  }

  /** The sequence of jobs the script starts. */
  class Launcher {
    var events: seq<Event>

    constructor()
      ensures events == []
    {
      events := [];
    }

    method Emit(e: Event)
      modifies this
      ensures events == old(events) + [e]
    {
      events := events + [e];
    }

    /** Lines 306-323 of main.py. The statistics are read once, before any
        job runs, so the last branch sees the count from before any
        download. */
    method RunMain(modelFileExists: bool, collector: DataCollector, loader: DL.DataLoader, limit: int)
      modifies this
      ensures events == old(events)
        + Plan(modelFileExists, collector.db.present, loader.absentList, |collector.db.foodImages|, limit)
    {
      Emit(InitBotDb);
      var existModel := modelFileExists;
      var existDatasetDb := collector.db.present;
      var stats := collector.GetStats();
      if !existModel {
        Emit(ValidateImages);
      }
      RunDatasetJobs(existDatasetDb, loader.absentList, stats.totalImages, limit);
      Emit(RunBot);
    }

    /** The if / elif / elif chain of lines 315-322. */
    method RunDatasetJobs(existDatasetDb: bool, absent: Dict<string, int>, totalImages: nat, limit: int)
      modifies this
      ensures events == old(events) + DatasetJobs(existDatasetDb, absent, totalImages, limit)
    {
      if |absent| > 0 && existDatasetDb {
        Emit(DownloadAbsent(absent));
        Emit(AddFilesToDatabase);
      } else if !existDatasetDb {
        Emit(DownloadTrain(limit));
        Emit(InitDatabase);
      } else if existDatasetDb && totalImages == 0 {
        Emit(InitDatabase);
      }
    }
  }

  /** Running main.py as a script: the module-level `DataCollector()`
      opens, and so creates, `ml/food_dataset.db` before the block checks
      for it, so the full download never runs. */
  method RunScript(mlDir: string, modelFileExists: bool, registry: DL.Registry, datasetDb: DatasetDb,
                   disk: Disk, loader: DL.DataLoader, limit: int, launcher: Launcher)
    returns (collector: DataCollector)
    modifies datasetDb, disk, launcher
    ensures collector.db == datasetDb && datasetDb.present
    ensures launcher.events == old(launcher.events)
      + Plan(modelFileExists, true, loader.absentList, |datasetDb.foodImages|, limit)
    ensures forall e :: e in launcher.events[|old(launcher.events)|..] ==> !e.DownloadTrain?
  {
    collector := new DataCollector(mlDir, registry, datasetDb, disk);
    launcher.RunMain(modelFileExists, collector, loader, limit);
    ExistingDbNeverDownloadsAll(modelFileExists, loader.absentList, |datasetDb.foodImages|, limit);
    assert launcher.events[|old(launcher.events)|..]
        == Plan(modelFileExists, true, loader.absentList, |datasetDb.foodImages|, limit);
  }
}
