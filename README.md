# CaloriesCalc core in Dafny

CaloriesCalc is a Telegram calorie-counting bot with a small image pipeline
behind it. That pipeline collects food photos from image search and
stores them in a SQLite dataset, from which a classifier is trained. This
project models the parts of the program that decide and keep state:

- the category registry: the fixed category lists, the Russian/English
  food mapping, and the registry the data loader fills;
- the quota calculator: `absent_list`, one deficit per category;
- the fetch coordinator: worker draining of the shared category list, the
  deficit download and its second sequential pass, the crawler's index
  offset, and the validator that deletes
  undecodable images;
- the dataset recorder: food-name matching, the two image tables, the
  labelled export and the statistics with the `can_train` bar;
- dataset seeding from the image folders;
- label indexing in `FoodDataset`;
- the start-up decision of `main.py`: validate, fetch the deficit,
  download everything, or only seed the database;
- the two calorie stores, `bot/db.py` and `db.py`;
- the report formatters of `bot/str_utils.py` and `str_utils.py`.

Modules follow the source files:

| module | source file |
|---|---|
| `ProductLists` | ml/product_lists.py |
| `DataLoader` | ml/data_loader.py; `PyList` is a Python list shared by reference |
| `Provider` | the image-search libraries, seen only through the requests they receive |
| `LoaderImageLoader`, `ImageProcess` | ml/loader/image_loader.py, ml/loader/image_process.py |
| `ImageLoader` | ml/image_loader.py |
| `DatasetCollector`, `DatasetInit`, `FoodDataset` | the files of the same names under ml/ |
| `CaloriesConfig`, `BotDb`, `RootDb` | the `calories_config` table both stores share, bot/db.py, db.py |
| `DailyReport`, `BotStrUtils`, `StrUtils` | `print_daily_report` (identical in both files), the rest of bot/str_utils.py, str_utils.py |
| `Bootstrap` | main.py:306-323 |
| `Collections`, `Text` | helpers: Python dicts as ordered sequences of pairs, string formatting |

Model conventions:

- A Python dict whose order matters is a sequence of (key, value) pairs.
  `Put` overwrites a key in place or appends a new one.
- A SQLite table is the sequence of its rows in rowid order.
- A directory tree is a value: a listing map from path to entries and a
  map from readable file paths to their bytes.
- The image providers (`bing_image_downloader`, `icrawler`) become an
  object that records each request it receives. A crawl fails exactly
  for the keywords in its failure map.
- Clocks and uuids become parameters.
- Exceptions become `Option`/`Result` values.

Where the code's behaviour reads as unintended, the model follows the code:

- `download_absent_data_for_classes` in ml/loader/image_loader.py requests
  every absent category twice. The worker thread drains the list, then a
  sequential loop walks the dict again, although the worker alone
  already requests each category once. The model keeps both passes.
- `init_database` tests `ml/train_images` twice and reads the test dict
  from the train folder.
- `add_files_to_train_database` raises on the first character of any
  non-empty value.
- `get_user_calories_per_day` in db.py raises TypeError for every known
  user, because the connection has no row factory.
- `fill_list_on_init` in ml/product_lists.py unpacks two `items()` views.
  It succeeds only when both dicts have exactly two entries.
- `add_calories_for_today` in bot/db.py builds each new row on the first
  row of the day (see Findings).

## Model

| member | source | states |
|---|---|---|
| ProductLists.InitialFoodMapping | ml/product_lists.py:37-68 | the food mapping holds 29 translations |
| ProductLists.EnglishNamesDistinct | ml/product_lists.py:37-68 | the 29 English keys are pairwise different, one per Russian name |
| ProductLists.RussianNamesDistinct | ml/product_lists.py:37-68 | the 29 Russian values are pairwise different |
| ProductLists.CategoriesDistinct | ml/product_lists.py:1-17 | the category list has 15 entries, none repeated |
| ProductLists.ClassesIdxIsIndex | ml/product_lists.py:1-35 | the class index covers exactly the categories and maps each one to its position in the list, in 0..14 |
| ProductLists.EveryCategoryTranslated | ml/product_lists.py:1-68 | every category is the translation of some English name |
| ProductLists.FoodMappingInvertible | ml/product_lists.py:37-68 | the mapping and its inversion are both dicts; English to Russian and back give the same pairs |
| ProductLists.StaticRegistry.constructor | ml/product_lists.py:1-68 | the module-level registry starts with the fixed lists, index and mapping |
| ProductLists.StaticRegistry.FillListOnInit | ml/product_lists.py:70-78 | raises unless both dicts have two entries; the mapping is updated as far as the unpacking got; on success the categories are appended and enumerated from 0 |
| DataLoader.Registry.constructor | ml/data_loader.py:6-8 | the registry starts with an empty shared list, index and mapping |
| DataLoader.Registry.MapTranslations | ml/data_loader.py:19-20 | the mapping gains the zipped English-to-Russian pairs; the index is untouched |
| DataLoader.Registry.FillListOnInit | ml/data_loader.py:16-26 | mapping zipped, index enumerated over the Russian list, the shared list extended by it |
| DataLoader.TranslationsLastWins | ml/data_loader.py:19-20 | a repeated English name maps to the Russian name of its last occurrence within the zipped prefix |
| DataLoader.ClassIndexInvertsList | ml/data_loader.py:21-24 | over distinct names the index covers exactly the list and inverts its positions |
| DataLoader.AbsentListSpec | ml/data_loader.py:42-56 | the deficit map is a dict whose keys are exactly the categories with a deficit, each holding that deficit |
| DataLoader.AbsentListCases | ml/data_loader.py:43-56 | missing or empty categories ask for the full quota; partial ones ask for exactly the shortfall, which is positive and below the quota; full ones are excluded |
| DataLoader.AbsentKeysAreCategories | ml/data_loader.py:42-56 | every deficit key is a known category |
| DataLoader.AbsentEntryIsLocal | ml/data_loader.py:43-56 | a category's deficit depends on its own count only, so recomputing with unchanged inventory gives the same entry |
| DataLoader.ReconcileAsksOnlyShortfall | ml/data_loader.py:46-52 | after some images arrive, the next pass asks for the remaining shortfall, or drops the category once the quota is met |
| DataLoader.QuotaScenario | ml/data_loader.py:50-52 | quota 5 with 2 present gives deficit 3; with 3 present, 2 |
| DataLoader.DataLoader.constructor | ml/data_loader.py:30-56 | the loader fills the registry's mapping and keeps the deficit map of its inventory |
| LoaderImageLoader.ValidateDirectory | ml/loader/image_loader.py:35-46 | the walk over one folder keeps, deletes and counts exactly as the validation pass defines |
| LoaderImageLoader.ValidateDirKeeps | ml/loader/image_loader.py:35-46 | a file survives validation iff it was there and is outside the folder or decodes |
| LoaderImageLoader.ValidateDirSpec | ml/loader/image_loader.py:31-46 | survivors keep their order; deleted counts the undecodable files under the folder, accepted the decodable ones |
| LoaderImageLoader.ValidateKeysDeletes | ml/loader/image_loader.py:33-46 | an undecodable file in any category folder is gone afterwards |
| LoaderImageLoader.ValidateKeysKeeps | ml/loader/image_loader.py:33-46 | a decodable file, or one outside every category folder, stays |
| LoaderImageLoader.ValidateDrainedVisitsNothing | ml/loader/image_loader.py:33 | over an empty category list validation deletes and counts nothing |
| LoaderImageLoader.DrainRequestsEachKeyOnce | ml/loader/image_loader.py:51-66 | draining the shared list requests each category exactly once (as a multiset), popping from the end |
| LoaderImageLoader.AbsentProductsRequestedTwice | ml/loader/image_loader.py:90-113 | the worker plus the sequential loop request every absent category exactly twice |
| LoaderImageLoader.MultithreadAbsentDownloading | ml/loader/image_loader.py:70-88 | the worker empties the absent list and requests each key with its deficit, last key first |
| LoaderImageLoader.ImageLoaderModule.constructor | ml/loader/image_loader.py:13 | the module's key list is the registry's shared list |
| LoaderImageLoader.ImageLoaderModule.MultithreadDownloading | ml/loader/image_loader.py:49-67 | the shared list ends empty, and one download of `limit` is requested per category, last first |
| LoaderImageLoader.ImageLoaderModule.DownloadTrainDataForClasses | ml/loader/image_loader.py:18-27 | the same requests as the drain, and the shared list ends empty |
| LoaderImageLoader.ImageLoaderModule.ValidateImagesByFolder | ml/loader/image_loader.py:29-47 | the file tree and both counters are those of validating every category folder |
| LoaderImageLoader.DrainEmptiesRegistry | ml/loader/image_loader.py:13-47 | a download drains the list the module shares with the registry, so validation afterwards checks nothing |
| LoaderImageLoader.StartWorkers | ml/loader/image_loader.py:93-98 | the worker's requests, one per absent key with its deficit, last key first |
| LoaderImageLoader.DownloadAbsentDataForClasses | ml/loader/image_loader.py:90-113 | the worker's requests, then a second request per key into the module folder; returns the new-file names |
| ImageProcess.DeficitOffsetFollowsCount | ml/loader/image_process.py:22-28 | for the amount the quota calculator assigns, the index offset is one past the entry count it saw (1 for a missing folder) and offset + amount − 1 equals the quota |
| ImageProcess.ProductResultStatus | ml/loader/image_process.py:29-31 | the per-product message is an error with the provider's text iff the crawl failed; otherwise it reports the amount |
| ImageProcess.DownloadProduct | ml/loader/image_process.py:13-31 | creates the category folder, issues one crawl, and returns its status message |
| ImageProcess.LimitForCases | ml/loader/image_process.py:45-49 | test folders use the test limit, train folders the train limit, others 0 |
| ImageProcess.BatchDirsSpec | ml/loader/image_process.py:52-55 | a batch creates exactly one folder per absent category |
| ImageProcess.BatchIsPerEntry | ml/loader/image_process.py:52-55 | the i-th crawl and message belong to the i-th deficit entry, with the offset ending at the quota |
| ImageProcess.DownloadDataToFolder | ml/loader/image_process.py:33-60 | creates the root and category folders, crawls each deficit in order, one message each |
| ImageProcess.DownloadBatch | ml/loader/image_process.py:50-59 | the loop issues the batch's crawls and messages in dict order |
| ImageLoader.UniformRequests | ml/image_loader.py:9-18 | one download per category, same limit, in list order |
| ImageLoader.DeficitRequests | ml/image_loader.py:23-31 | one download per key, each with its own deficit |
| ImageLoader.PutTwice | ml/image_loader.py:33-34 | writing a key twice keeps only the second value |
| ImageLoader.NewFilesDictSpec | ml/image_loader.py:22-35 | the new-files dict has a key per category with a positive deficit, holding the name of its last new image |
| ImageLoader.DeficitStep | ml/image_loader.py:23-34 | one loop step adds one request and, for a positive amount, one name |
| ImageLoader.RecordImageNames | ml/image_loader.py:33-34 | the inner loop leaves the last image name, or nothing for a non-positive amount |
| ImageLoader.DownloadTrainDataForClasses | ml/image_loader.py:9-19 | requests every category with the same limit, in order |
| ImageLoader.DownloadAbsentDataForClasses | ml/image_loader.py:21-35 | requests each deficit once and returns the new-files dict |
| DatasetCollector.WordRun | ml/dataset_collector.py:41 | the longest prefix of word characters |
| DatasetCollector.Words | ml/dataset_collector.py:41 | every extracted word is a non-empty run of lower-case Russian letters |
| DatasetCollector.ExactFood | ml/dataset_collector.py:35-37 | the first category contained in the text, or none when no category is |
| DatasetCollector.RootOf | ml/dataset_collector.py:43-45 | the first category sharing the word's root, or none |
| DatasetCollector.SpecificFoodIsCategory | ml/dataset_collector.py:30-47 | the detected food is a category or "unknown" |
| DatasetCollector.SpecificFoodExact | ml/dataset_collector.py:32-37 | a contained category wins, the earliest one in list order |
| DatasetCollector.RootFoodSpec | ml/dataset_collector.py:41-45 | root matching picks the first word with a match and its first category |
| DatasetCollector.SpecificFoodByRoot | ml/dataset_collector.py:39-47 | with no contained category the result is the root match or "unknown" |
| DatasetCollector.DatasetDb.ConnectAndCreateTables | ml/dataset_collector.py:49-86 | creating the tables keeps existing rows and starts a new file empty |
| DatasetCollector.ByClassCounts | ml/dataset_collector.py:149-154 | the per-class dict holds exactly the classes that occur, each with its count |
| DatasetCollector.ByClassSum | ml/dataset_collector.py:145-154 | the per-class counts add up to the number of rows |
| DatasetCollector.StatsBounds | ml/dataset_collector.py:127-163 | trainable samples never exceed total images; `can_train` iff at least 20 trainable |
| DatasetCollector.StatsAppend | ml/dataset_collector.py:145-163 | one more row adds one image, one trainable sample if verified, and one to its class |
| DatasetCollector.SaveMovesStats | ml/dataset_collector.py:109-121 | a saved image is verified, so it raises both totals by one |
| DatasetCollector.DataCollector.constructor | ml/dataset_collector.py:13-28 | the collector shares the registry's list, creates its folder and opens the tables |
| DatasetCollector.DataCollector.SaveFoodImage | ml/dataset_collector.py:88-125 | appends one row to the chosen table only and returns the detected food |
| DatasetCollector.LabeledDataSpec | ml/dataset_collector.py:131-135 | the export is exactly the verified rows of the train table, in table order, each as (path, class) |
| DatasetCollector.AllVerifiedExportsAll | ml/dataset_collector.py:116-137 | a table whose rows are all verified, as every saved row is, is exported whole, one pair per row in order |
| DatasetCollector.DataCollector.GetLabeledData | ml/dataset_collector.py:127-137 | returns the (path, class) pairs of the verified train rows, in table order |
| DatasetCollector.DataCollector.GetStats | ml/dataset_collector.py:139-165 | the statistics of the training table, within their bounds |
| DatasetInit.ImageFilesSpec | ml/dataset_init.py:28-29 | keeps exactly the image-extension names, in listing order |
| DatasetInit.ImageDictSpec | ml/dataset_init.py:21-37 | one entry per category, holding its image names |
| DatasetInit.CreateImageDictByFolder | ml/dataset_init.py:21-37 | fails iff some category folder cannot be listed; otherwise builds the image dict |
| DatasetInit.SavingIsPerKey | ml/dataset_init.py:42-65 | saved rows and skipped categories add up over a split of the dict: a failure stays in its category |
| DatasetInit.KeyOutcome | ml/dataset_init.py:43-65 | a category saves its readable prefix in order and counts as skipped iff some file is unreadable |
| DatasetInit.SaveCategory | ml/dataset_init.py:43-62 | one category's rows go to the chosen table only |
| DatasetInit.SavingDictToDb | ml/dataset_init.py:39-81 | the chosen table gains every saved row in order; the counters are the saved and skipped totals |
| DatasetInit.InitDatabase | ml/dataset_init.py:84-106 | no folder: nothing; a listing fails: an error and no rows; else both tables seeded from the train folder |
| DatasetInit.AddFilesToTrainDatabase | ml/dataset_init.py:6-19 | raises iff some value is non-empty |
| FoodDataset.NewFoodDataset | ml/food_dataset.py:10-13 | keeps the data list and transform |
| FoodDataset.SortLabelsSpec | ml/food_dataset.py:12 | sorting gives an ordered permutation of the labels |
| FoodDataset.SortedIsUnique | ml/food_dataset.py:12 | two ordered permutations of the same labels are equal |
| FoodDataset.ClassesAreSortedLabels | ml/food_dataset.py:12 | `classes` is all labels, duplicates kept, in code-point order |
| FoodDataset.ClassToIdxIsLastPosition | ml/food_dataset.py:13 | the index covers exactly the labels and gives each one's last position in `classes` |
| FoodDataset.ClassToIdxIncreasing | ml/food_dataset.py:12-13 | a smaller label gets a smaller index, within the data-list length |
| FoodDataset.StrLeTotal | ml/food_dataset.py:12 | the string order compares any two labels |
| FoodDataset.StrLeTransitive | ml/food_dataset.py:12 | the string order is transitive |
| CaloriesConfig.NewUser | bot/db.py:55-60 | a new user row carries the given id |
| CaloriesConfig.InsertUserSpec | bot/db.py:55-60 | the insert fails with IntegrityError iff the user exists; otherwise it appends the default row and keeps ids unique |
| CaloriesConfig.UpdateDailySpec | bot/db.py:88-92 | the update changes the limit of the matching rows only and keeps ids unique |
| CaloriesConfig.UpdateUnknownIsNoOp | bot/db.py:88-92 | updating an unknown user changes nothing |
| BotDb.DayRowsAppend | bot/db.py:76 | a new row joins a day's selection iff it is of that user and day |
| BotDb.NextRow | bot/db.py:117-128 | continues the fetched total and order number, or starts at the amount and 1 |
| BotDb.FirstRowCounterexample | bot/db.py:111-128 | three entries on one day end at 400 with order 2, not 600 with order 3 |
| BotDb.LatestRowTotals | bot/db.py:111-128 | building on the latest row, the day's last row holds the running total and the entry count |
| BotDb.ReportAfterAdd | bot/db.py:72-84 | after the store's entry the day's report gains one pair: the product and the first row's total plus the amount |
| BotDb.TodayReportSpec | bot/db.py:72-84 | no report iff the user has no row that day; otherwise one pair per row in table order |
| BotDb.BotDatabase.constructor | bot/db.py:7-8 | the store keeps its path and the file's existing tables |
| BotDb.BotDatabase.InitDb | bot/db.py:10-41 | the tables exist afterwards and no row changes |
| BotDb.BotDatabase.AddUser | bot/db.py:55-60 | no table: error; known user: IntegrityError; else the default row is appended |
| BotDb.BotDatabase.CheckUserExists | bot/db.py:62-70 | true iff the user has a row |
| BotDb.BotDatabase.GetTodayCalories | bot/db.py:72-84 | the day's report, or an error without tables |
| BotDb.BotDatabase.SetDailyCalories | bot/db.py:88-92 | only the user's limit changes |
| BotDb.BotDatabase.AddProduct | bot/db.py:94-98 | appends one product row |
| BotDb.BotDatabase.GetProductsInfo | bot/db.py:100-108 | one (name, calories) pair per product in table order |
| BotDb.BotDatabase.AddCaloriesForToday | bot/db.py:111-128 | appends exactly one history row, built on the first row of the day as the code does (see Findings); nothing else changes |
| RootDb.CaloriesPerDayNeverAnswers | db.py:31-41 | the lookup answers nothing iff the user is unknown, and raises otherwise |
| RootDb.RootDatabase.constructor | db.py:6-7 | the store keeps its path and the file's existing tables |
| RootDb.RootDatabase.InitDb | db.py:9-29 | the tables exist afterwards and no row changes |
| RootDb.RootDatabase.GetUserCaloriesPerDay | db.py:31-41 | an error without tables, else the lookup's outcome |
| RootDb.RootDatabase.AddUser | db.py:43-48 | no table: error; known user: IntegrityError; else the default row is appended |
| RootDb.RootDatabase.CheckUserExists | db.py:50-58 | true iff the user has a row |
| RootDb.RootDatabase.SetDailyCalories | db.py:60-63 | only the user's limit changes |
| DailyReport.PrintDailyReport | bot/str_utils.py:6-19 | the built string is the framed report of the products |
| DailyReport.ReportFrame | bot/str_utils.py:9-18 | the report opens with a blank line and a '=' rule and closes with the total line and a '=' rule |
| DailyReport.TotalLineShowsSum | bot/str_utils.py:7-17 | the total line is at least 40 columns and ends with the sum of all calories |
| DailyReport.TotalSplit | bot/str_utils.py:7 | the sum adds up across a split of the list |
| DailyReport.AppendProductAddsLine | bot/str_utils.py:7-14 | one more product adds exactly its numbered line and its calories |
| DailyReport.ItemLinesCount | bot/str_utils.py:13-14 | one line per product |
| DailyReport.ReportLineCount | bot/str_utils.py:8-18 | the report has seven fixed lines plus one per product |
| DailyReport.ItemLineLayout | bot/str_utils.py:14 | each item line shows the number, the whole name and the calories; short fields give 32 characters |
| DailyReport.CaloriesFieldShowsValue | bot/str_utils.py:14 | the calories are shown whole, right-aligned in four columns |
| DailyReport.EmptyReport | bot/str_utils.py:7-14 | an empty list gives no item lines and a total of 0 |
| BotStrUtils.CardText | bot/str_utils.py:50-58 | the message is the card's lines joined by line breaks |
| BotStrUtils.CardLinesShape | bot/str_utils.py:50-56 | title, separator, one line per field in order, separator, and the footer only when it is non-empty |
| BotStrUtils.CardTextStart | bot/str_utils.py:50-58 | the message starts with the bold title and the separator |
| BotStrUtils.CardTextLines | bot/str_utils.py:50-58 | with single-line parts the message has as many breaks as fields plus 2, plus 2 more with a footer |
| StrUtils.ProductsDbFacts | str_utils.py:3-24 | 20 distinct products, every one with positive calories |
| StrUtils.ProductsDbRowsSpec | str_utils.py:3-24 | one row per product, in dict order, with its name and calories |
| StrUtils.InitProductTable | str_utils.py:51-53 | the root store has no `add_product` and raises; the bot store gains all 20 rows in order |
| Bootstrap.ValidationIffNoModel | main.py:313-314 | validation runs once iff no trained model exists, right after the store is set up |
| Bootstrap.AbsentBranch | main.py:315-317 | with a dataset and a deficit: fetch the deficit and add the files, nothing else |
| Bootstrap.FullDownloadBranch | main.py:318-320 | without a dataset: download everything, then seed |
| Bootstrap.InitOnlyBranch | main.py:321-322 | an empty dataset with no deficit is only seeded |
| Bootstrap.NoDatasetJob | main.py:315-322 | a filled dataset with no deficit runs no dataset job |
| Bootstrap.JobsInitCount | main.py:315-322 | the dataset jobs start `init_database` once iff the database is missing, or empty with no deficit |
| Bootstrap.DeficitShadowsInit | main.py:315-322 | a deficit on an empty dataset skips seeding |
| Bootstrap.InitDatabaseWhen | main.py:315-322 | seeding runs once iff there is no dataset or it is empty with no deficit |
| Bootstrap.ExistingDbNeverDownloadsAll | main.py:311-318 | with the database present the full download never runs, for any limit |
| Bootstrap.Launcher.RunMain | main.py:306-323 | the steps taken are the start-up plan for the model, dataset, deficit and row count |
| Bootstrap.Launcher.RunDatasetJobs | main.py:315-322 | the if/elif chain takes its dataset jobs |
| Bootstrap.RunScript | main.py:306-323 | building the collector creates the dataset file first, so the script never takes the full-download branch |

## Left out

- The Telegram front end (main.py:28-304, bot/main.py) is not modelled. From bot/str_utils.py this also leaves out `send_card`'s reply, `print_help_info` and `print_product_info`.
- `get_lemma_word` (pymorphy3) is not modelled. Lemmatisation is a foreign library.
- `multiply_calories` is not modelled: it is floating-point arithmetic.
- ml/loader/image_downloader.py, ml/food_model.py, ml/model/ and log/log_writer.py are not part of this model: training, inference and logging.
- `save_image_to_db_by_folder` in ml/dataset_collector.py and `get_training_status` are not modelled: no core path calls them.
- The image providers are a stand-in. They record requests, and a crawl fails for the keywords of its failure map. They download nothing, so the file system does not grow from a crawl.
- Threads are modelled sequentially with `num_threads` = 1. The unjoined worker of `download_absent_data_for_classes` is taken to finish before the sequential loop. Lock timing and `as_completed` order are not modelled.
- Image decoding (PIL `verify`) is a per-file boolean. `makedirs` failures and other I/O errors besides missing directories and unreadable files are not modelled.
- Python's `str.lower()` is modelled on ASCII and Russian letters only, and the regex `\w` on letters, digits and `_` of those alphabets.
- `created_at` timestamps and uuid ids are left out of rows. `date.today()` is a parameter.
- The `predicted_class` and `confidence` arguments of `save_food_image` are ignored by the source and left out.
- `GROUP BY` output order in `get_stats` is taken as first appearance in the table. SQLite does not promise an order.
- `fetchone` without `ORDER BY` is taken to return the first matching row in rowid order, which is SQLite's full-scan order.
- SQLite parameter binding (`$1` with a list) is taken to bind positionally.
- The JSON configuration reads behind the quotas and paths are parameters.
- The per-item `__len__` and `__getitem__` that `FoodDataset` defines inside its constructor are local functions that are never bound, so they are not modelled.
- The loader's `product_lists` is taken to be the registry's shared list. ml/loader/data_loader.py is not part of this model.
- Provider.ImageProvider.Download: a download never fails in the model. `downloader.download` can raise (a timeout, say). In ml/image_loader.py:10-18 and 23-34 a raise would end the loop. In ml/loader/image_loader.py:58-66 and 80-87 it would end the worker thread with keys left in the shared list. So the drain results (DrainRequestsEachKeyOnce, DrainEmptiesRegistry, the empty list after a download) hold only for downloads that return.
- ImageProcess.DeficitOffsetFollowsCount: how icrawler turns `file_idx_offset` into file names, and the names already in the folder, are not modelled. The lemma relates numbers only, so it does not show that no name is reused; after the validator deletes files the entry count can differ from the highest existing number. The quota calculator counts ml/downloaded_images against `product_limit`, while `download_data_to_folder` crawls into ml/loader/<folder> with its own limits; the lemma assumes the deficit map it receives was computed for the same folder and limit.
- Bootstrap.Launcher.RunMain: `validate_images` and `add_files_to_database` are recorded as steps, with their effects given by the LoaderImageLoader and DatasetInit members.
- RootDb.CaloriesPerDayNeverAnswers: the row-factory TypeError is an error value. The dict the code would build is not modelled.

## Findings

| source | as written | input that shows it | evidently intended | confidence | as-written member | corrected member |
|---|---|---|---|---|---|---|
| bot/db.py:115-128 | `add_calories_for_today` selects the day's rows without ORDER BY and builds on the first one (BotDb.AddAsWritten) | one user adds 100, 200, then 300 on one day: the third row holds 400 with order id 2 | each row builds on the day's latest row: 600 with order id 3. Even then `print_daily_report` (bot/str_utils.py:7) sums the `todays_calories` column of the day's rows, so a report over running totals counts earlier entries again under either version | not executed | BotDb.FirstRowCounterexample | BotDb.LatestRowTotals |
