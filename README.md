# K-Pop Dance App — a verified model of its logic

This project is a Dafny model of the deterministic logic in the K-Pop dance practice app. The app
has two halves. The Android client is written in Kotlin. The AI worker is written in Python.
Each core source file has one Dafny module. Each module states and proves what its source file
promises.

Android client:

- `FilenameParser`: the `__`-separated result-file name parser.
- `AnalysisDto` and `DataConverter`: the JSON frame DTOs and their conversion into typed `KeyPoint`s.
- `SkeletonData`: the 17-value `BodyPart` enum and the 16-bone connection table.
- `SkeletonOverlay`: the overlay's point map (denormalisation with centring), and which bones
  and joints it draws in which colour.
- `IntegrationTest`: the calibration screen's class.
  - It matches assets to a part.
  - It sets and resets the scale defaults.
  - It picks the nearest frame by timestamp.
  - It applies the centre-scaling transform.
- `AnalysisMapper`: the mapping from a result DTO to a `PracticeHistory` row.
- `UserDao`, `HistoryDao` and `AchievementDao`: the three Room DAOs.
  - Each is a class over an in-memory table keyed by primary key.
  - Its SQL statements are map transformers, with REPLACE and IGNORE insertion.
- `AppRepository` and `MainViewModel`: saving a practice, updating stats, the sync pass, the
  initial fetch, and the view model's `isSyncing` guard and messages.
- `PresignedUrlUploader`: the upload order (temp file, URL grant, S3 PUT, clean-up), the
  bounded status-polling loop over a sequence of replies, and the local result file name.
- `RecordScreenMobile`: the upload file name, the `mm:ss` timer, the record button and timer
  reset, the lens toggle and the permission flag.
- `AppNavigation`: bar visibility per route, route strings, argument defaults and the
  "artist · part" split.
- `AnalysisLoading`: the stage enum, the scripted stage run and the tip rotation.

AI worker:

- `PoseTypes`, `PoseEstimation`, `TestTracker` and `CalibrationTest`: the per-frame tracking in
  `pose_estimation.py`, `test.py` and `calibration_test.py`.
  - Initial target: the largest box, or the box nearest the user's region.
  - Track-ID match, then re-identification by nearest centre within a fraction of the width.
  - Keypoint normalisation, the neck keypoint and the per-frame records.
  - The manual ID prompt and the grading in `calibration_test.py`.
  - The manual tracker is proved to coincide with the production tracker.
- `Scoring`: grades, the score clamp, keypoint loading, `path[::5]` sampling, the worst-part
  counter and the error timeline.
- `DebugAnalysis`: the mirror and rotation transforms, the scorer fallback and the
  best-variant choice.
- `SqsBridge`: the S3 event parser, with Python's exceptions made explicit, and the
  per-message dispatch and delete decision, with the task queue's and the queue client's
  answers as per-message replies.
- `VideoConverter`: output naming, skipping files already converted, the GPU-then-CPU
  fallback, and the de-duplicated, sorted directory run.
- `KotlinBundler`: the `.kt`/`.kts` classification, the four-way chunking and the consecutive
  code numbering of `code_to_kotlin_kts.py`.

`Strings`, `Tables` and `Wrappers` hold shared helpers:

- `Strings`: Kotlin/Python `split`, `trim`, `substringBeforeLast`, `replace`, digit filtering
  and number printing.
- `Tables`: key lists of maps and primary-key reads.
- `Wrappers`: `Option`.

I/O, inference, time and the network are parameters or sequences of replies. The source does
things step by step in these places, and the model keeps that form:

- The DAOs, the repository, the view model, the screens and the uploader are classes whose
  methods change fields.
- The Python loops are methods with loop invariants.
- Each method is proved against a specification function. The properties are stated about
  that function.

Where the code differs from how it is described or called, the model follows the code:

- `SkeletonOverlay.kt:73` skips a `BodyPart.NECK`, but the enum in `SkeletonData.kt` has no
  such value. The model has no NECK check.
- `AppRepository.kt:58,104` set `lastPracticeDate`, which is not a `UserStats` field. The model
  leaves it out.
- The worst part in `scoring.py` is `max` over an insertion-ordered dictionary. Ties in the
  counter therefore go to the part that first entered the counter, not to the first part in
  `body_parts` order. Ties within one frame do follow `body_parts` order.
- In `AppNavigation.kt:556` the fallback part is the whole, untrimmed `artistPart`.
- The diagnostic script calls `Scoring().compare` and reads `total_score`. `scoring.py`
  defines `ScoringCalculator.calculate_score`, which returns a `score`. See "Findings" below.

## Model

| member | source | states |
|---|---|---|
| Tables.Lookup | kpop-android-app/app/src/main/java/com/example/kpopdancepracticeai/data/dao/UserDao.kt:18-23 | a primary-key read (also `AchievementDao.kt:30-31`): present exactly when a row is stored under the key, and then that row |
| UserDao.Upsert | kpop-android-app/app/src/main/java/com/example/kpopdancepracticeai/data/dao/UserDao.kt:26-27 | REPLACE: afterwards the row under the new row's key is the new row; every other key and its row is kept and no other key appears; rows stay under their own key |
| UserDao.AddTotalTime | kpop-android-app/app/src/main/java/com/example/kpopdancepracticeai/data/dao/UserDao.kt:30-31 | the keys are unchanged; only the named user's `totalPracticeTimeSeconds` grows by `addTime`; an unknown user leaves the table unchanged |
| UserDao.IncrementSongs | kpop-android-app/app/src/main/java/com/example/kpopdancepracticeai/data/dao/UserDao.kt:34-35 | only the named user's `completedSongCount` grows by one; an unknown user leaves the table unchanged |
| UserDao.SetAverageAccuracy | kpop-android-app/app/src/main/java/com/example/kpopdancepracticeai/data/dao/UserDao.kt:38-39 | only the named user's `averageAccuracy` becomes the new value; an unknown user leaves the table unchanged |
| UserDao.LookupAfterUpsert | kpop-android-app/app/src/main/java/com/example/kpopdancepracticeai/data/dao/UserDao.kt:22-27 | reading a key after an upsert gives the upserted row for its key and the old answer for any other key |
| UserDao.AddTimeCommutes | kpop-android-app/app/src/main/java/com/example/kpopdancepracticeai/data/dao/UserDao.kt:30-31 | two time updates give the same table in either order |
| UserDao.UserDao.GetUserStatsOneShot | kpop-android-app/app/src/main/java/com/example/kpopdancepracticeai/data/dao/UserDao.kt:22-23 | returns the stored row of the user, or nothing |
| UserDao.UserDao.InsertOrUpdate | kpop-android-app/app/src/main/java/com/example/kpopdancepracticeai/data/dao/UserDao.kt:26-27 | the table becomes the REPLACE upsert of the old table and keeps every row under its own key |
| UserDao.UserDao.UpdateTotalTime | kpop-android-app/app/src/main/java/com/example/kpopdancepracticeai/data/dao/UserDao.kt:30-31 | the table becomes the old table with the user's time increased |
| UserDao.UserDao.IncrementSongCount | kpop-android-app/app/src/main/java/com/example/kpopdancepracticeai/data/dao/UserDao.kt:34-35 | the table becomes the old table with the user's song count increased by one |
| UserDao.UserDao.UpdateAverageAccuracy | kpop-android-app/app/src/main/java/com/example/kpopdancepracticeai/data/dao/UserDao.kt:38-39 | the table becomes the old table with the user's average accuracy replaced |
| AchievementDao.FirstWithId | kpop-android-app/app/src/main/java/com/example/kpopdancepracticeai/data/dao/AchievementDao.kt:22-23 | nothing exactly when no achievement in the list has the id; otherwise a member of the list with that id |
| AchievementDao.InsertIgnoring | kpop-android-app/app/src/main/java/com/example/kpopdancepracticeai/data/dao/AchievementDao.kt:22-23 | inserting with IGNORE keeps every row under its own key |
| AchievementDao.InsertIgnoringContents | kpop-android-app/app/src/main/java/com/example/kpopdancepracticeai/data/dao/AchievementDao.kt:22-23 | after the insert an id is present iff it was stored or is in the list; stored rows are unchanged; a new id holds the first row of the list with that id |
| AchievementDao.InsertIgnoringTwice | kpop-android-app/app/src/main/java/com/example/kpopdancepracticeai/data/dao/AchievementDao.kt:22-23 | inserting the same list a second time changes nothing |
| AchievementDao.SetProgress | kpop-android-app/app/src/main/java/com/example/kpopdancepracticeai/data/dao/AchievementDao.kt:26-27 | keys unchanged; only the named row's progress and completion change; an unknown id changes nothing |
| AchievementDao.AchievementDao.GetAllAchievements | kpop-android-app/app/src/main/java/com/example/kpopdancepracticeai/data/dao/AchievementDao.kt:18-19 | an achievement is listed iff it is the stored row under its id; no row is listed twice |
| AchievementDao.AchievementDao.InsertAchievements | kpop-android-app/app/src/main/java/com/example/kpopdancepracticeai/data/dao/AchievementDao.kt:22-23 | the loop leaves exactly the IGNORE insert of the list into the old table |
| AchievementDao.AchievementDao.UpdateProgress | kpop-android-app/app/src/main/java/com/example/kpopdancepracticeai/data/dao/AchievementDao.kt:26-27 | the table becomes the progress update of the old table |
| AchievementDao.AchievementDao.GetAchievement | kpop-android-app/app/src/main/java/com/example/kpopdancepracticeai/data/dao/AchievementDao.kt:30-31 | returns the stored row under the id, or nothing |
| HistoryDao.InsertReplace | kpop-android-app/app/src/main/java/com/example/kpopdancepracticeai/data/dao/HistoryDao.kt:18-19 | id 0 gets a fresh id not in use and any other id is kept; the returned row id is the key written; the table gains exactly that key, holding the row with that id; other rows are unchanged; the auto-increment counter stays above every id |
| HistoryDao.MarkSynced | kpop-android-app/app/src/main/java/com/example/kpopdancepracticeai/data/dao/HistoryDao.kt:30-31 | keys unchanged; only the row with that id becomes synced |
| HistoryDao.MarkSyncedIdempotent | kpop-android-app/app/src/main/java/com/example/kpopdancepracticeai/data/dao/HistoryDao.kt:30-31 | marking the same id twice is the same as once |
| HistoryDao.MarkSyncedLeavesUnsynced | kpop-android-app/app/src/main/java/com/example/kpopdancepracticeai/data/dao/HistoryDao.kt:26-31 | after marking, the unsynced ids are the old ones minus that id |
| HistoryDao.InsertNewestFirst | kpop-android-app/app/src/main/java/com/example/kpopdancepracticeai/data/dao/HistoryDao.kt:22-23 | placing a row into the list is a permutation of the list plus that row |
| HistoryDao.InsertNewestFirstSorted | kpop-android-app/app/src/main/java/com/example/kpopdancepracticeai/data/dao/HistoryDao.kt:22-23 | placing a row keeps a list ordered by `practiceDate` descending |
| HistoryDao.ConsNewestFirst | kpop-android-app/app/src/main/java/com/example/kpopdancepracticeai/data/dao/HistoryDao.kt:22-23 | a row no older than every row of a descending list may be put in front of it |
| HistoryDao.InsertNewestFirstMembers | kpop-android-app/app/src/main/java/com/example/kpopdancepracticeai/data/dao/HistoryDao.kt:22-23 | the placed list holds the new row and the old rows, and nothing else |
| HistoryDao.InsertNewestFirstIds | kpop-android-app/app/src/main/java/com/example/kpopdancepracticeai/data/dao/HistoryDao.kt:22-23 | placing a row whose id is not listed keeps the ids distinct |
| HistoryDao.ConsIdsDistinct | kpop-android-app/app/src/main/java/com/example/kpopdancepracticeai/data/dao/HistoryDao.kt:22-27 | a row with a new id may be put in front of a list of distinct ids |
| HistoryDao.SongScanStep | kpop-android-app/app/src/main/java/com/example/kpopdancepracticeai/data/dao/HistoryDao.kt:22-23 | one step of the song scan keeps the result equal to the matching rows among the keys seen, ordered newest first |
| HistoryDao.UnsyncedScanStep | kpop-android-app/app/src/main/java/com/example/kpopdancepracticeai/data/dao/HistoryDao.kt:26-27 | one step of the unsynced scan keeps the result equal to the unsynced rows among the keys seen |
| HistoryDao.HistoryDao.InsertHistory | kpop-android-app/app/src/main/java/com/example/kpopdancepracticeai/data/dao/HistoryDao.kt:18-19 | table, counter and returned row id are those of `InsertReplace` on the old state |
| HistoryDao.HistoryDao.GetHistoryBySong | kpop-android-app/app/src/main/java/com/example/kpopdancepracticeai/data/dao/HistoryDao.kt:22-23 | lists exactly the stored rows of that song, each once, newest first |
| HistoryDao.HistoryDao.GetUnsyncedData | kpop-android-app/app/src/main/java/com/example/kpopdancepracticeai/data/dao/HistoryDao.kt:26-27 | lists exactly the stored rows with `isSynced` false, each once |
| HistoryDao.HistoryDao.MarkAsSynced | kpop-android-app/app/src/main/java/com/example/kpopdancepracticeai/data/dao/HistoryDao.kt:30-31 | the table becomes `MarkSynced` of the old table |
| AppRepository.StatsAfterSave | kpop-android-app/app/src/main/java/com/example/kpopdancepracticeai/data/repository/AppRepository.kt:51-59 | starting from the user's row, or the default row when there is none, the song count grows by one and the practice time by 180 s, and every other column is carried over |
| AppRepository.RepeatedSaves | kpop-android-app/app/src/main/java/com/example/kpopdancepracticeai/data/repository/AppRepository.kt:51-60 | `n` saves by one user leave exactly `n` more songs and `180·n` more seconds than the starting row, every other column unchanged |
| AppRepository.AfterSync | kpop-android-app/app/src/main/java/com/example/kpopdancepracticeai/data/repository/AppRepository.kt:65-81 | the push keeps the keys; a row becomes synced unless sending it failed; the rows still unsynced are exactly the unsynced rows whose send failed, so one failure does not stop the others |
| AppRepository.SyncWithoutFailures | kpop-android-app/app/src/main/java/com/example/kpopdancepracticeai/data/repository/AppRepository.kt:67-76 | when no send fails, no row is left unsynced |
| AppRepository.AppRepository.SavePracticeResult | kpop-android-app/app/src/main/java/com/example/kpopdancepracticeai/data/repository/AppRepository.kt:36-46 | the returned id is the inserted row id; the history table is the push applied to the table after the insert; the stats table is the local stats update of the saving user |
| AppRepository.AppRepository.UpdateUserStatsLocally | kpop-android-app/app/src/main/java/com/example/kpopdancepracticeai/data/repository/AppRepository.kt:51-61 | the stats table becomes the upsert of `StatsAfterSave` for the history's user |
| AppRepository.AppRepository.SyncUnsyncedData | kpop-android-app/app/src/main/java/com/example/kpopdancepracticeai/data/repository/AppRepository.kt:65-81 | the loop over the unsynced rows leaves exactly `AfterSync` of the old history table |
| AppRepository.AppRepository.FetchInitialData | kpop-android-app/app/src/main/java/com/example/kpopdancepracticeai/data/repository/AppRepository.kt:87-116 | succeeds iff the network does not fail; on success the user's row is replaced by the fixed server stats (100 songs, 45000 s, level 5, 42 parts, 92.5); on failure nothing changes and the failure is reported to the caller |
| MainViewModel.NewHistoryIsNewRow | kpop-android-app/app/src/main/java/com/example/kpopdancepracticeai/viewmodel/MainViewModel.kt:61-79 | the saved practice is inserted under a fresh id, is unsynced, belongs to "user_test_01" with artist "Unknown" and part "Part 1", and carries the given title, score, accuracy and song id |
| MainViewModel.MainViewModel.ClearSyncMessage | kpop-android-app/app/src/main/java/com/example/kpopdancepracticeai/viewmodel/MainViewModel.kt:52-54 | the sync message becomes null |
| MainViewModel.MainViewModel.SavePracticeResult | kpop-android-app/app/src/main/java/com/example/kpopdancepracticeai/viewmodel/MainViewModel.kt:61-81 | the repository saves exactly the history the view model builds: the insert (rows and next row id), the push, and the stats update of the test user |
| MainViewModel.MainViewModel.RefreshData | kpop-android-app/app/src/main/java/com/example/kpopdancepracticeai/viewmodel/MainViewModel.kt:87-106 | while a sync is running nothing happens; otherwise the messages shown are the in-progress text and then the success or failure text, the last one stays, isSyncing ends false on both outcomes, and the stats change only on success |
| MainViewModel.MainViewModel.StartRefresh | kpop-android-app/app/src/main/java/com/example/kpopdancepracticeai/viewmodel/MainViewModel.kt:87-93 | a refresh starts iff none is running; a started one raises isSyncing and shows the in-progress text, a refused one leaves the message alone |
| MainViewModel.MainViewModel.FinishRefresh | kpop-android-app/app/src/main/java/com/example/kpopdancepracticeai/viewmodel/MainViewModel.kt:95-104 | the outcome text is the failure text iff the pull fails, it becomes the message, isSyncing is cleared in `finally`, and only a successful pull changes the stats |
| MainViewModel.MainViewModel.RefreshTappedTwice | kpop-android-app/app/src/main/java/com/example/kpopdancepracticeai/viewmodel/MainViewModel.kt:87-89 | a second tap during a running refresh is refused, and the run ends exactly as a single refresh |
| AnalysisMapper.MapToPracticeHistory | kpop-android-app/app/src/main/java/com/example/kpopdancepracticeai/data/mapper/AnalsisMapper.kt:19-48 | the row is new (id 0) and unsynced; user, song, artist and part come from the file name's metadata; the title and date are the given ones; score is the total score and accuracy the same number |
| AnalysisMapper.ResultFileToHistory | kpop-android-app/app/src/main/java/com/example/kpopdancepracticeai/data/mapper/AnalsisMapper.kt:19-32 | a result file named `u__s__a__p.ext` parses, and the mapped row carries `u`, `s`, `a`, `p` as user, song, artist and part |
| AnalysisMapper.MappedRowQueuedForSync | kpop-android-app/app/src/main/java/com/example/kpopdancepracticeai/data/mapper/AnalsisMapper.kt:46 | inserting a mapped row adds exactly one new id to the rows waiting for sync |
| FilenameParser.Stem | kpop-android-app/app/src/main/java/com/example/kpopdancepracticeai/data/util/FilenamePaser.kt:18 | without a "." the name is kept; otherwise the result is the part before the last ".", and the part after it holds no "." |
| FilenameParser.Parse | kpop-android-app/app/src/main/java/com/example/kpopdancepracticeai/data/util/FilenamePaser.kt:15-38 | no result iff the stem splits on "__" into fewer than 4 pieces; otherwise the four fields joined by "__" begin the stem |
| FilenameParser.FieldsArePrefix | kpop-android-app/app/src/main/java/com/example/kpopdancepracticeai/data/util/FilenamePaser.kt:21-33 | when there are at least four pieces, the first four joined by "__" begin the stem |
| FilenameParser.ParseIgnoresExtraSegments | kpop-android-app/app/src/main/java/com/example/kpopdancepracticeai/data/util/FilenamePaser.kt:24-33 | with four or more underscore-free segments, the fields are the first four and later segments (such as `result`) are ignored |
| FilenameParser.StemDropsExtension | kpop-android-app/app/src/main/java/com/example/kpopdancepracticeai/data/util/FilenamePaser.kt:17-18 | removing the extension of `stem.ext` gives back `stem` |
| FilenameParser.ParseRoundTrip | kpop-android-app/app/src/main/java/com/example/kpopdancepracticeai/data/util/FilenamePaser.kt:15-33 | parsing `u__s__a__p.ext` gives back exactly `u`, `s`, `a`, `p` |
| MainViewModel.MainViewModel.constructor | kpop-android-app/app/src/main/java/com/example/kpopdancepracticeai/viewmodel/MainViewModel.kt:44-49 | a new view model is not syncing and shows no sync message |
| PresignedUrlUploader.ParseStatus | kpop-android-app/app/src/main/java/com/example/kpopdancepracticeai/data/PresignedUrlUploader.kt:149-158 | the four status strings the loop distinguishes map one-to-one onto their cases, and any other string is kept as an unrecognised status |
| PresignedUrlUploader.Decide | kpop-android-app/app/src/main/java/com/example/kpopdancepracticeai/data/PresignedUrlUploader.kt:140-161 | a 404 reports the waiting text and goes on; the poll completes iff a successful reply with a body says "completed"; a stop is always a final callback and a progress report never is; progress reports `attempts·5` seconds; a reply is silently skipped iff it is a successful reply with an unrecognised status |
| PresignedUrlUploader.PollEndsOnce | kpop-android-app/app/src/main/java/com/example/kpopdancepracticeai/data/PresignedUrlUploader.kt:133-171 | every poll fires at least one callback, the last one is `onComplete` or `onError` and no earlier one is; at most 60 status checks are made, and there is at most one progress report per check |
| PresignedUrlUploader.PollTimesOut | kpop-android-app/app/src/main/java/com/example/kpopdancepracticeai/data/PresignedUrlUploader.kt:139-167 | when every reply keeps the poll waiting, it makes all 60 checks and ends in the timeout error |
| PresignedUrlUploader.WaitingGoesOn | kpop-android-app/app/src/main/java/com/example/kpopdancepracticeai/data/PresignedUrlUploader.kt:143-165 | a reply that keeps the poll waiting costs one check and leaves the final callback to the later checks |
| PresignedUrlUploader.PollFromContinue | kpop-android-app/app/src/main/java/com/example/kpopdancepracticeai/data/PresignedUrlUploader.kt:139-166 | a check that goes on fires its progress report (if any) and then whatever the next check leads to |
| PresignedUrlUploader.PollFromSplit | kpop-android-app/app/src/main/java/com/example/kpopdancepracticeai/data/PresignedUrlUploader.kt:139-166 | when the first `n` checks all go on, the callbacks are their progress reports followed by what follows from check `n`, and `n` more checks are made |
| PresignedUrlUploader.PollAnalysisResult | kpop-android-app/app/src/main/java/com/example/kpopdancepracticeai/data/PresignedUrlUploader.kt:124-172 | the loop fires exactly the callbacks of the poll specification and makes exactly its number of checks |
| PresignedUrlUploader.UploadVideo | kpop-android-app/app/src/main/java/com/example/kpopdancepracticeai/data/PresignedUrlUploader.kt:49-87 | the upload ends in `onComplete` or `onError`; the temp file is deleted iff the temp file, the URL grant and the S3 PUT all succeeded, and only after the PUT; it completes iff the file was deleted, and then with the granted S3 key |
| PresignedUrlUploader.ResultFileName | kpop-android-app/app/src/main/java/com/example/kpopdancepracticeai/data/PresignedUrlUploader.kt:190 | the local file name holds no "/", ends the key, and when shorter than the key sits right after a "/" |
| RecordScreenMobile.SongId | kpop-android-app/app/src/main/java/com/example/kpopdancepracticeai/ui/RecordScreenMobile.kt:274 | the song id holds no space and no underscore, and holds every other character of the title |
| RecordScreenMobile.PartNum | kpop-android-app/app/src/main/java/com/example/kpopdancepracticeai/ui/RecordScreenMobile.kt:277 | the part number is non-empty and all digits: the digits of the part in order, or "0" when it has none |
| RecordScreenMobile.PartName | kpop-android-app/app/src/main/java/com/example/kpopdancepracticeai/ui/RecordScreenMobile.kt:280 | the part name is the text after the last ":" (the whole part when there is none) with spaces and underscores removed, so it holds neither; the "None" fallback never applies |
| RecordScreenMobile.UploadFileNameFields | kpop-android-app/app/src/main/java/com/example/kpopdancepracticeai/ui/RecordScreenMobile.kt:270-286 | the uploaded file's stem splits on "_" into exactly the five fields user, song id, part number, part name and timestamp, and the last field reads back as the timestamp |
| RecordScreenMobile.FiveFieldsSplit | kpop-android-app/app/src/main/java/com/example/kpopdancepracticeai/ui/RecordScreenMobile.kt:286 | five underscore-free fields joined by "_" split back into exactly those five fields |
| RecordScreenMobile.Mp4Stem | kpop-android-app/app/src/main/java/com/example/kpopdancepracticeai/ui/RecordScreenMobile.kt:286 | removing the extension of `stem.mp4` gives back `stem` |
| RecordScreenMobile.Pad2 | kpop-android-app/app/src/main/java/com/example/kpopdancepracticeai/ui/RecordScreenMobile.kt:211 | `%02d`: at least two digits, exactly two below 100, and the digits read back as the number |
| RecordScreenMobile.TimerTextReadsBack | kpop-android-app/app/src/main/java/com/example/kpopdancepracticeai/ui/RecordScreenMobile.kt:211 | the timer text is minutes ":" two-digit seconds below 60, which read back as the elapsed seconds; under 100 minutes it is five characters |
| RecordScreenMobile.Toggled | kpop-android-app/app/src/main/java/com/example/kpopdancepracticeai/ui/RecordScreenMobile.kt:345-346 | the toggle always changes the lens |
| RecordScreenMobile.ToggleTwice | kpop-android-app/app/src/main/java/com/example/kpopdancepracticeai/ui/RecordScreenMobile.kt:345-346 | toggling twice gives back the lens |
| RecordScreenMobile.AllGranted | kpop-android-app/app/src/main/java/com/example/kpopdancepracticeai/ui/RecordScreenMobile.kt:68 | true iff every requested permission was granted |
| RecordScreenMobile.RecordScreen.OnPermissionsResult | kpop-android-app/app/src/main/java/com/example/kpopdancepracticeai/ui/RecordScreenMobile.kt:67-69 | `hasPermissions` becomes true iff every grant is true |
| RecordScreenMobile.RecordScreen.Tick | kpop-android-app/app/src/main/java/com/example/kpopdancepracticeai/ui/RecordScreenMobile.kt:88-97 | a second while recording adds one to the counter; otherwise the counter is 0 |
| RecordScreenMobile.RecordScreen.OnRecordClick | kpop-android-app/app/src/main/java/com/example/kpopdancepracticeai/ui/RecordScreenMobile.kt:230-240 | a click while recording stops it and the counter is 0; otherwise recording starts iff the camera is bound |
| RecordScreenMobile.RecordScreen.OnFinalizeError | kpop-android-app/app/src/main/java/com/example/kpopdancepracticeai/ui/RecordScreenMobile.kt:331-335 | a failed recording stops recording and the counter is 0 |
| RecordScreenMobile.RecordScreen.OnFinalizeSuccess | kpop-android-app/app/src/main/java/com/example/kpopdancepracticeai/ui/RecordScreenMobile.kt:264-299 | the upload uses the five-field file name, and polling uses the same user and the same timestamp as the file name |
| RecordScreenMobile.RecordScreen.ToggleLens | kpop-android-app/app/src/main/java/com/example/kpopdancepracticeai/ui/RecordScreenMobile.kt:345-346 | the lens becomes the toggled lens |
| AppNavigation.ShowMainBars | kpop-android-app/app/src/main/java/com/example/kpopdancepracticeai/ui/AppNavigation.kt:128-177 | the bottom bar shows iff the route is not one of the hidden routes; with no route it shows |
| AppNavigation.ShowTopBar | kpop-android-app/app/src/main/java/com/example/kpopdancepracticeai/ui/AppNavigation.kt:164-168 | the top bar shows iff the main bars show and the route is not home, profile, search or the search-results template |
| AppNavigation.HiddenRoutesDistinct | kpop-android-app/app/src/main/java/com/example/kpopdancepracticeai/ui/AppNavigation.kt:128-142 | there are 13 hidden routes, all different |
| AppNavigation.HiddenRoutesHideBars | kpop-android-app/app/src/main/java/com/example/kpopdancepracticeai/ui/AppNavigation.kt:143-177 | on every hidden route both bars are hidden |
| AppNavigation.ShownBars | kpop-android-app/app/src/main/java/com/example/kpopdancepracticeai/ui/AppNavigation.kt:143-177 | home, search and profile show only the bottom bar; analysis shows both; search results show only the bottom bar; no route shows both |
| AppNavigation.OnSearch | kpop-android-app/app/src/main/java/com/example/kpopdancepracticeai/ui/AppNavigation.kt:307-311 | home navigates iff the query is not blank, and then to "searchResults/" followed by the query |
| AppNavigation.DecodedOr | kpop-android-app/app/src/main/java/com/example/kpopdancepracticeai/ui/AppNavigation.kt:488 | a present argument is decoded; a missing one gives the default |
| AppNavigation.ReadPracticeArgs | kpop-android-app/app/src/main/java/com/example/kpopdancepracticeai/ui/AppNavigation.kt:488-491 | each present argument is decoded and each missing one falls back to its fixed default text |
| AppNavigation.FirstPiece | kpop-android-app/app/src/main/java/com/example/kpopdancepracticeai/ui/AppNavigation.kt:554-555 | the first piece of the split is the longest prefix without the separator; it is the whole text when the separator is absent and is followed by the separator otherwise |
| AppNavigation.SplitSecond | kpop-android-app/app/src/main/java/com/example/kpopdancepracticeai/ui/AppNavigation.kt:554-556 | the split has a second piece iff the separator occurs, and that piece is the first piece of the text after the first separator |
| AppNavigation.SplitArtistPart | kpop-android-app/app/src/main/java/com/example/kpopdancepracticeai/ui/AppNavigation.kt:554-556 | the artist is the trimmed text before the first "·" (so "Unknown" never applies); the part is the trimmed second piece, or the whole untrimmed text when there is no "·" |
| AppNavigation.ReadRecordArgs | kpop-android-app/app/src/main/java/com/example/kpopdancepracticeai/ui/AppNavigation.kt:549-556 | present arguments are decoded and missing ones take "제목 없음", "정보 없음", "보통"; artist and part come from splitting the decoded `artistPart` |
| AppNavigation.DefaultArtistPart | kpop-android-app/app/src/main/java/com/example/kpopdancepracticeai/ui/AppNavigation.kt:550-556 | with no `artistPart`, artist and part are both "정보 없음" |
| AppNavigation.PracticeRoundTrip | kpop-android-app/app/src/main/java/com/example/kpopdancepracticeai/ui/AppNavigation.kt:465-491 | with an encoder whose output holds no "/" and that the decoder inverts, the practice route has five "/"-pieces, begins with "dancePractice", and the destination reads back the four arguments |
| AppNavigation.RecordRoundTrip | kpop-android-app/app/src/main/java/com/example/kpopdancepracticeai/ui/AppNavigation.kt:506-556 | under the same encoder, the record route has four pieces, begins with "record", and reads back title, difficulty and the split of `artistPart` |
| AppNavigation.ArtistPartRoundTrip | kpop-android-app/app/src/main/java/com/example/kpopdancepracticeai/ui/AppNavigation.kt:554-556 | "artist·part" with no other dot splits into the trimmed artist and the trimmed part |
| AnalysisLoading.Progress | kpop-android-app/app/src/main/java/com/example/kpopdancepracticeai/ui/AnalysisLoadingScreen.kt:26-32 | every stage's progress lies in (0, 1], and it is 1 exactly for COMPLETED |
| AnalysisLoading.DisplayedPercent | kpop-android-app/app/src/main/java/com/example/kpopdancepracticeai/ui/AnalysisLoadingScreen.kt:116 | the shown percent is progress·100 truncated |
| AnalysisLoading.StagesInOrder | kpop-android-app/app/src/main/java/com/example/kpopdancepracticeai/ui/AnalysisLoadingScreen.kt:26-32 | the five stages, in declared order, have strictly increasing progress and show 20, 50, 80, 95 and 100 percent |
| AnalysisLoading.CompleteIsLastAndOnce | kpop-android-app/app/src/main/java/com/example/kpopdancepracticeai/ui/AnalysisLoadingScreen.kt:50-61 | in the scripted run `onAnalysisComplete` is called once, last, right after COMPLETED is shown, and the shown stages' progress rises strictly |
| AnalysisLoading.AnalysisWaitingScreen.Show | kpop-android-app/app/src/main/java/com/example/kpopdancepracticeai/ui/AnalysisLoadingScreen.kt:52-58 | the current stage becomes the given stage, and it is recorded as shown |
| AnalysisLoading.AnalysisWaitingScreen.RunScript | kpop-android-app/app/src/main/java/com/example/kpopdancepracticeai/ui/AnalysisLoadingScreen.kt:50-61 | starting from UPLOADING, the script shows the five stages in order, ends at COMPLETED and then calls `onAnalysisComplete` once |
| AnalysisLoading.AnalysisWaitingScreen.RotateTips | kpop-android-app/app/src/main/java/com/example/kpopdancepracticeai/ui/AnalysisLoadingScreen.kt:152-158 | after `ticks` turns the tip index is the start index plus `ticks`, modulo 3, and it stays in [0, 3) |
| AnalysisLoading.AnalysisWaitingScreen.constructor | kpop-android-app/app/src/main/java/com/example/kpopdancepracticeai/ui/AnalysisLoadingScreen.kt:47 | the screen starts at UPLOADING, with only that stage shown and the first tip |
| SkeletonData.Ordinal | kpop-android-app/app/src/main/java/com/example/kpopdancepracticeai/ui/SkeletonData.kt:14-22 | every body part's ordinal is below 17 |
| SkeletonData.ValuesAreOrdinals | kpop-android-app/app/src/main/java/com/example/kpopdancepracticeai/ui/SkeletonData.kt:14-22 | `values()` lists the 17 parts in declared order: position `i` holds the part with ordinal `i`, NOSE is 0 and RIGHT_ANKLE 16 |
| SkeletonData.BoneOf | kpop-android-app/app/src/main/java/com/example/kpopdancepracticeai/ui/SkeletonData.kt:25-43 | every body part is an end of some bone of the table |
| SkeletonData.BoneCodeInverse | kpop-android-app/app/src/main/java/com/example/kpopdancepracticeai/ui/SkeletonData.kt:25-43 | each bone's unordered code leads back to its position, and no bone joins a part to itself |
| SkeletonData.ConnectionsDistinct | kpop-android-app/app/src/main/java/com/example/kpopdancepracticeai/ui/SkeletonData.kt:25-43 | the table has 16 bones, no two the same in either direction |
| SkeletonData.DefaultConfidence | kpop-android-app/app/src/main/java/com/example/kpopdancepracticeai/ui/SkeletonData.kt:6-11 | a key point built without a confidence has confidence 1.0 |
| SkeletonOverlay.MaxDim | kpop-android-app/app/src/main/java/com/example/kpopdancepracticeai/ui/SkeletonOverlay.kt:39 | `max(width, height)`: one of the two and at least both |
| SkeletonOverlay.OffsetsNonPositive | kpop-android-app/app/src/main/java/com/example/kpopdancepracticeai/ui/SkeletonOverlay.kt:43-44 | both letterbox offsets are at most 0, and the one on the longer side is 0 |
| SkeletonOverlay.CentreMapsToCentre | kpop-android-app/app/src/main/java/com/example/kpopdancepracticeai/ui/SkeletonOverlay.kt:39-49 | the normalised point (0.5, 0.5) is drawn at the canvas centre |
| SkeletonOverlay.PointMapDomain | kpop-android-app/app/src/main/java/com/example/kpopdancepracticeai/ui/SkeletonOverlay.kt:46-50 | the point map holds exactly the parts that occur among the key points |
| SkeletonOverlay.PointMapLaterWins | kpop-android-app/app/src/main/java/com/example/kpopdancepracticeai/ui/SkeletonOverlay.kt:46-50 | when a part occurs twice, `associate` keeps the position of its last key point |
| SkeletonOverlay.DrawnBones | kpop-android-app/app/src/main/java/com/example/kpopdancepracticeai/ui/SkeletonOverlay.kt:53-68 | a bone is drawn iff both its ends are in the point map |
| SkeletonOverlay.BoneLines | kpop-android-app/app/src/main/java/com/example/kpopdancepracticeai/ui/SkeletonOverlay.kt:53-68 | the bone pass draws one line per bone with both ends present |
| SkeletonOverlay.JointCirclesAt | kpop-android-app/app/src/main/java/com/example/kpopdancepracticeai/ui/SkeletonOverlay.kt:71-91 | with every part in the map, the joint pass draws one circle per key point, in order, at its mapped position, red iff its error flag is 1 |
| SkeletonOverlay.DrawCommandsMeaning | kpop-android-app/app/src/main/java/com/example/kpopdancepracticeai/ui/SkeletonOverlay.kt:33-92 | the overlay draws the present bones' lines in table order, then one circle per key point at its mapped position, red iff `errors[ordinal] == 1` with the index in range |
| SkeletonOverlay.BonesThenJoints | kpop-android-app/app/src/main/java/com/example/kpopdancepracticeai/ui/SkeletonOverlay.kt:53-91 | the bone lines come first and the joint circles after them |
| SkeletonOverlay.NoErrorsAllNormal | kpop-android-app/app/src/main/java/com/example/kpopdancepracticeai/ui/SkeletonOverlay.kt:78-84 | without an error list every joint is drawn in the normal colour |
| DataConverter.ConvertToKeyPoints | kpop-android-app/app/src/main/java/com/example/kpopdancepracticeai/ui/test/DataConverter.kt:13-41 | the loop returns exactly the conversion of the frame's raw points |
| DataConverter.ConvertedPrefixMeaning | kpop-android-app/app/src/main/java/com/example/kpopdancepracticeai/ui/test/DataConverter.kt:19-39 | after the first `n` raw points, the result holds one key point for each kept index below `n`, in index order, each copied from its raw point |
| DataConverter.ConvertedMeaning | kpop-android-app/app/src/main/java/com/example/kpopdancepracticeai/ui/test/DataConverter.kt:13-41 | a raw point becomes a key point iff its index is below 17 and it has at least two numbers; x and y are copied, confidence is the third number or 0; the key points are in index order |
| IntegrationTest.FirstMatchingMeaning | kpop-android-app/app/src/main/java/com/example/kpopdancepracticeai/ui/test/IntegrationTestScreen.kt:121-123 | `find` finds nothing iff no file ends with the suffix and contains the key; what it finds is such a file from the list |
| IntegrationTest.FirstMatchingIsFirst | kpop-android-app/app/src/main/java/com/example/kpopdancepracticeai/ui/test/IntegrationTestScreen.kt:121-123 | `find` returns the first matching file in list order |
| IntegrationTest.DefaultScaleX | kpop-android-app/app/src/main/java/com/example/kpopdancepracticeai/ui/test/IntegrationTestScreen.kt:142-147 | a portrait video gets the horizontal scale height/width, which is above 1; any other video gets 1 |
| IntegrationTest.Adopt | kpop-android-app/app/src/main/java/com/example/kpopdancepracticeai/ui/test/IntegrationTestScreen.kt:137-151 | a positive video size is adopted with vertical scale 1, offsets 0 and the portrait horizontal scale; any other size leaves the calibration as it was |
| IntegrationTest.CalibrateMeaning | kpop-android-app/app/src/main/java/com/example/kpopdancepracticeai/ui/test/IntegrationTestScreen.kt:189-194 | the identity calibration changes nothing; part and confidence are kept; the centre (0.5, 0.5) is fixed by any scale without offset; with non-zero scales the calibration can be undone |
| IntegrationTest.CalibrateAll | kpop-android-app/app/src/main/java/com/example/kpopdancepracticeai/ui/test/IntegrationTestScreen.kt:189-194 | every key point is calibrated, one for one and in order |
| IntegrationTest.InsertByTimeSorted | kpop-android-app/app/src/main/java/com/example/kpopdancepracticeai/ui/test/IntegrationTestScreen.kt:153 | inserting a frame keeps a list in timestamp order |
| IntegrationTest.InsertByTimeBound | kpop-android-app/app/src/main/java/com/example/kpopdancepracticeai/ui/test/IntegrationTestScreen.kt:153 | inserting a frame no earlier than a bound keeps every frame at or after that bound |
| IntegrationTest.InsertByTimePermutes | kpop-android-app/app/src/main/java/com/example/kpopdancepracticeai/ui/test/IntegrationTestScreen.kt:153 | inserting a frame adds exactly that frame |
| IntegrationTest.SortByTimeMeaning | kpop-android-app/app/src/main/java/com/example/kpopdancepracticeai/ui/test/IntegrationTestScreen.kt:153 | `sortedBy { timestamp }` gives the same frames in non-decreasing timestamp order |
| IntegrationTest.InsertByTimeWithTime | kpop-android-app/app/src/main/java/com/example/kpopdancepracticeai/ui/test/IntegrationTestScreen.kt:153 | an inserted frame goes ahead of every frame with its timestamp, and frames with other timestamps keep their order |
| IntegrationTest.SortByTimeStable | kpop-android-app/app/src/main/java/com/example/kpopdancepracticeai/ui/test/IntegrationTestScreen.kt:153 | `sortedBy` is stable: for every timestamp, the frames carrying it appear in their input order |
| IntegrationTest.NearestIn | kpop-android-app/app/src/main/java/com/example/kpopdancepracticeai/ui/test/IntegrationTestScreen.kt:180 | the chosen frame, if any, is among the frames searched |
| IntegrationTest.NearestInMeaning | kpop-android-app/app/src/main/java/com/example/kpopdancepracticeai/ui/test/IntegrationTestScreen.kt:180 | `minByOrNull`: nothing iff there are no frames; otherwise a frame whose time is nearest the playback time, and the first such frame |
| IntegrationTest.NearestFrame | kpop-android-app/app/src/main/java/com/example/kpopdancepracticeai/ui/test/IntegrationTestScreen.kt:180 | the scan returns exactly the nearest-frame specification over all frames |
| IntegrationTest.IntegrationTestScreen.SelectPart | kpop-android-app/app/src/main/java/com/example/kpopdancepracticeai/ui/test/IntegrationTestScreen.kt:221 | the part button selects the part and clears `isDataReady`, and nothing else changes |
| IntegrationTest.IntegrationTestScreen.LoadAndParseData | kpop-android-app/app/src/main/java/com/example/kpopdancepracticeai/ui/test/IntegrationTestScreen.kt:106-170 | the load stops the player; when the JSON or the video asset is missing, or the JSON cannot be read, data stays not ready and frames and calibration are kept; otherwise the frames are the response's frames sorted by time, the video size is adopted and data is ready |
| IntegrationTest.IntegrationTestScreen.ApplyVideoSize | kpop-android-app/app/src/main/java/com/example/kpopdancepracticeai/ui/test/IntegrationTestScreen.kt:137-151 | the calibration becomes the adoption of the given video size |
| IntegrationTest.IntegrationTestScreen.ResetCalibration | kpop-android-app/app/src/main/java/com/example/kpopdancepracticeai/ui/test/IntegrationTestScreen.kt:347-353 | the reset button restores the automatic horizontal scale, vertical scale 1 and offsets 0 |
| IntegrationTest.IntegrationTestScreen.UpdateOverlay | kpop-android-app/app/src/main/java/com/example/kpopdancepracticeai/ui/test/IntegrationTestScreen.kt:176-200 | when the nearest frame is within 0.1 s, the overlay shows its converted and calibrated key points and its errors, or no key points when it has none; otherwise the overlay is unchanged |
| PoseTypes.SqDist | ai-server/dance-ai-worker/pose_estimation.py:176 | the squared centre distance is never negative, so comparing squares agrees with comparing the distances |
| PoseTypes.RoundedUnits | ai-server/dance-ai-worker/pose_estimation.py:207-211 | the nearest whole number of units to the scaled value, a tie going to the even one |
| PoseTypes.Round | ai-server/dance-ai-worker/pose_estimation.py:207-211 | `float(f"{v:.Nf}")`: a whole number of `1/scale` units within half a unit of v |
| PoseTypes.RoundPositive | ai-server/dance-ai-worker/pose_estimation.py:210-215 | a rounded value is positive iff v is more than half a unit, and then it is at least one unit |
| PoseTypes.RoundInUnit | ai-server/dance-ai-worker/pose_estimation.py:207-209 | rounding keeps a value of [0, 1] inside [0, 1] |
| PoseTypes.Timestamp | ai-server/dance-ai-worker/pose_estimation.py:128-132 | with a positive fps the timestamp is within half of 0.0001 of index / fps; otherwise it is 0 |
| PoseTypes.LargestAfterSpec | ai-server/dance-ai-worker/pose_estimation.py:147-161 | the rest of the largest-box scan, from any consistent state, finds no box iff none has positive area, and otherwise the first box of largest area |
| PoseTypes.LargestIsFirstLargest | ai-server/dance-ai-worker/pose_estimation.py:147-161 | the largest box is absent iff no box has positive area; otherwise it has the largest area and every earlier box is strictly smaller, so ties go to the earliest box |
| PoseTypes.SelectLargest | ai-server/dance-ai-worker/pose_estimation.py:147-161 | the `area > max_area` loop returns the first box of largest positive area, or -1 when no box has positive area |
| PoseTypes.NearestAfterSpec | ai-server/dance-ai-worker/pose_estimation.py:171-184 | the rest of the nearest-centre scan finds nothing iff no box is strictly within the radius, and otherwise the first nearest such box |
| PoseTypes.NearestIsFirstNearest | ai-server/dance-ai-worker/pose_estimation.py:171-184 | the nearest box within the radius is absent iff no centre is strictly closer than the radius; otherwise no box is nearer and every earlier box is strictly farther |
| PoseTypes.NearestThenTest | ai-server/dance-ai-worker/test.py:201-217 | taking the overall nearest box and then testing its distance against the radius picks the same box as searching only within the radius |
| PoseTypes.SelectNearest | ai-server/dance-ai-worker/pose_estimation.py:171-184 | the `dist < radius and dist < min_dist` loop returns the first nearest box within the radius, or -1 |
| PoseTypes.Normalize | ai-server/dance-ai-worker/pose_estimation.py:198-211 | x and y are within half of 0.00001 of their division by `max(width, height)` when it is positive and are 0 otherwise; the confidence is within half of 0.0001 of the input, and it is positive iff the input exceeds 0.00005 |
| PoseTypes.NormalizeInUnitSquare | ai-server/dance-ai-worker/pose_estimation.py:198-205 | a pixel inside the frame normalises into [0, 1] on both axes |
| PoseTypes.Neck | ai-server/dance-ai-worker/pose_estimation.py:213-225 | when both shoulder confidences are positive the neck is the rounded midpoint with the rounded mean confidence; otherwise it is (0, 0, 0) |
| PoseTypes.ShoulderSeen | ai-server/dance-ai-worker/pose_estimation.py:210-215 | a normalized shoulder counts as seen iff its raw confidence exceeds half a unit of the fourth decimal, and a seen one is at least one unit |
| PoseTypes.NeckOfRounded | ai-server/dance-ai-worker/pose_estimation.py:213-225 | with confidences that are 0 or at least one unit, the neck confidence is positive iff both shoulders are |
| PoseTypes.NeckThreshold | ai-server/dance-ai-worker/pose_estimation.py:207-225 | the neck test reads the rounded confidences: the neck is seen iff both raw shoulder confidences exceed 0.00005, and is (0, 0, 0) otherwise |
| PoseTypes.NormalizedWithNeck | ai-server/dance-ai-worker/pose_estimation.py:198-227 | one normalised point per keypoint, in order, then the neck computed from the normalised shoulders (5, 6) |
| PoseTypes.NormalizeKeypoints | ai-server/dance-ai-worker/pose_estimation.py:198-227 | the loop builds exactly the normalised keypoints followed by the neck |
| PoseTypes.IndexOf | ai-server/dance-ai-worker/pose_estimation.py:168 | `list.index` (also `test.py:197`): a position holding the id, with no earlier one |
| PoseEstimation.SelectTarget | ai-server/dance-ai-worker/pose_estimation.py:147-161 | an existing target is kept; without one the target becomes the id of the largest box, or stays none when no box has positive area |
| PoseEstimation.Match | ai-server/dance-ai-worker/pose_estimation.py:164-187 | the matched index is -1 or a box of the frame |
| PoseEstimation.Step | ai-server/dance-ai-worker/pose_estimation.py:139-228 | a matched frame yields 18 keypoints |
| PoseEstimation.InitialSelection | ai-server/dance-ai-worker/pose_estimation.py:147-168 | on the first frame with a positive-area box the target becomes the largest box's id and that person's keypoints are output; with no such box nothing changes and the frame is invalid |
| PoseEstimation.IdMatchTakesPrecedence | ai-server/dance-ai-worker/pose_estimation.py:166-196 | when the target id is in the frame, its first box is matched, the target is kept and the last centre moves to that box |
| PoseEstimation.ReidentifiesNearest | ai-server/dance-ai-worker/pose_estimation.py:170-196 | when the id is absent and a last centre exists, the frame is matched iff some centre is strictly within 0.15·width, and then the first nearest box is taken and its id adopted; otherwise the tracker is unchanged |
| PoseEstimation.CenterMovesOnlyOnMatch | ai-server/dance-ai-worker/pose_estimation.py:142-196 | the last centre changes only on a match; a frame without ids changes nothing; once set, a target is never cleared |
| PoseEstimation.RecordsAfterShape | ai-server/dance-ai-worker/pose_estimation.py:128-231 | from any prefix of well-shaped records, the rest of the run gives one record per frame with its index and timestamp, valid iff it has 18 keypoints and invalid iff it has none |
| PoseEstimation.OneRecordPerFrame | ai-server/dance-ai-worker/pose_estimation.py:113-231 | exactly one record per decoded frame, with frame_index its position and timestamp index/fps (0 when fps ≤ 0); a valid record has 18 keypoints and an invalid one has none |
| PoseEstimation.TrackFrame | ai-server/dance-ai-worker/pose_estimation.py:142-228 | the body for a frame with detections computes exactly one tracking step |
| PoseEstimation.ProcessVideo | ai-server/dance-ai-worker/pose_estimation.py:104-231 | the frame loop returns exactly the records and final tracker of the run specification |
| PoseTypes.Largest | ai-server/dance-ai-worker/pose_estimation.py:147-161 | the largest-box scan settles on -1 or a box of the frame |
| PoseTypes.Nearest | ai-server/dance-ai-worker/pose_estimation.py:171-184 | the nearest-centre scan settles on -1 or a box of the frame |
| TestTracker.TrackIds | ai-server/dance-ai-worker/test.py:108-112 | one id slot per box: the tracker's ids when present, otherwise a `None` for every box |
| TestTracker.Select | ai-server/dance-ai-worker/test.py:119-183 | once tracking has started or a target is set, the tracker is unchanged; a started track never stops and a video once treated as an expert video never turns back into a user video |
| TestTracker.RegionSelection | ai-server/dance-ai-worker/test.py:122-160 | for a user video with at least one box, the box nearest the selected region's centre (at any distance) becomes the target and tracking starts; with no box the run falls back to the automatic mode and nothing else changes |
| TestTracker.LargestSelection | ai-server/dance-ai-worker/test.py:163-183 | in the automatic mode the first box of largest positive area becomes the target, its centre the last centre, and tracking starts; without such a box nothing changes |
| TestTracker.Match | ai-server/dance-ai-worker/test.py:191-230 | the matched index is -1 or a box of the frame, and matching never changes the last centre or the two flags |
| TestTracker.IdMatchFirst | ai-server/dance-ai-worker/test.py:193-197 | when the target id is among the frame's ids, its first box is matched and the tracker is unchanged |
| TestTracker.HandoverIsNearestWithin | ai-server/dance-ai-worker/test.py:199-230 | when the id is lost, the match is the first nearest box strictly within 20% of the width; the target is handed over to that box's id only when it has one, and otherwise stays |
| TestTracker.Step | ai-server/dance-ai-worker/test.py:107-269 | an output frame has 18 keypoints and is produced only once tracking has started; a started track stays started |
| TestTracker.StartedStays | ai-server/dance-ai-worker/test.py:71-272 | from any prefix, the rest of the run adds one record per frame, never stops a started track and never turns an automatic run back into a user-video run |
| TestTracker.NeverReverts | ai-server/dance-ai-worker/test.py:55-272 | from any frame on, the run gives one record per remaining frame and keeps a started track started and an automatic run automatic |
| TestTracker.SelectFrame | ai-server/dance-ai-worker/test.py:119-183 | the two selection loops compute exactly the initial selection |
| TestTracker.MatchFrame | ai-server/dance-ai-worker/test.py:191-230 | the ID check and the nearest-centre loop compute exactly the match |
| TestTracker.TrackFrame | ai-server/dance-ai-worker/test.py:107-269 | the body for a frame with detections computes exactly one tracking step |
| TestTracker.ProcessVideo | ai-server/dance-ai-worker/test.py:55-272 | the frame loop returns exactly the records and final tracker of the run specification |
| CalibrationTest.BaseGrade | ai-server/dance-ai-worker/calibration_test.py:225-228 | S iff the score is at least 90, A iff in [80, 90), B iff in [70, 80), C iff below 70 |
| CalibrationTest.Demote | ai-server/dance-ai-worker/calibration_test.py:230-234 | one step down the order S, A, B, C, with C staying C |
| CalibrationTest.CalculateGrade | ai-server/dance-ai-worker/calibration_test.py:224-236 | never D; the base grade when the visibility ratio is at least 0.7, and that grade demoted once below it |
| CalibrationTest.GradeAgreesWithScoring | ai-server/dance-ai-worker/calibration_test.py:224-236 | at full visibility this grade equals the scorer's grade for scores of 60 and above, and is never worse than it |
| CalibrationTest.CalculateGradeMonotone | ai-server/dance-ai-worker/calibration_test.py:224-236 | a higher score with at least as much visibility never gets a worse grade |
| CalibrationTest.FirstPersonFrom | ai-server/dance-ai-worker/calibration_test.py:32-64 | the first frame before frame 150 that has ids, or -1 iff every such frame in range has none |
| CalibrationTest.FindPersonFrame | ai-server/dance-ai-worker/calibration_test.py:27-70 | the search loop returns the first frame with ids among the first 150, or -1 |
| CalibrationTest.FirstAccepted | ai-server/dance-ai-worker/calibration_test.py:83-93 | the first answer that parses as a detected id; none iff no answer does; earlier answers were all rejected |
| CalibrationTest.AskForId | ai-server/dance-ai-worker/calibration_test.py:83-93 | the prompt loop returns the first accepted answer |
| CalibrationTest.SelectTargetId | ai-server/dance-ai-worker/calibration_test.py:25-93 | no video: nothing; no person in the first 150 frames: nothing; otherwise the first accepted id of the first frame with people, which is always one of that frame's ids |
| CalibrationTest.Step | ai-server/dance-ai-worker/calibration_test.py:143-203 | a lost frame leaves the last centre unchanged; a matched frame yields 18 keypoints and sets the last centre |
| CalibrationTest.StepIsProductionStep | ai-server/dance-ai-worker/calibration_test.py:143-203 | one frame of the manual tracker is exactly one step of the production tracker started on the chosen id |
| CalibrationTest.RecordsAfterIsProduction | ai-server/dance-ai-worker/calibration_test.py:128-213 | from any prefix, the rest of the manual run yields the production run's records and tracker |
| CalibrationTest.RunIsProductionRun | ai-server/dance-ai-worker/calibration_test.py:121-213 | the manual run's records are the production run's, with the target fixed at the start and no last centre |
| CalibrationTest.MatchFrame | ai-server/dance-ai-worker/calibration_test.py:146-172 | the first box carrying the target id; else, given a last centre, the first nearest box strictly within 0.15·width; else -1 |
| CalibrationTest.FollowFrame | ai-server/dance-ai-worker/calibration_test.py:143-203 | the body for a frame with ids computes exactly one step |
| CalibrationTest.RecordsStep | ai-server/dance-ai-worker/calibration_test.py:128-213 | one loop iteration advances the run specification by one frame |
| CalibrationTest.ProcessVideoSpecificId | ai-server/dance-ai-worker/calibration_test.py:96-221 | the loop returns exactly the run's records and tracker, and a valid-frame count equal to the number of valid records |
| Scoring.GetGrade | ai-server/dance-ai-worker/scoring.py:213-218 | S iff the score is at least 90, A iff in [80, 90), B iff in [70, 80), C iff in [60, 70), D iff below 60 |
| Scoring.GradeMonotone | ai-server/dance-ai-worker/scoring.py:213-218 | a higher score never gets a worse grade |
| Scoring.ClampScore | ai-server/dance-ai-worker/scoring.py:154 | the result lies in [0, 100]; a score inside is kept, one below becomes 0 and one above becomes 100 |
| Scoring.Loaded | ai-server/dance-ai-worker/scoring.py:44-51 | at most one entry per frame, and only frames with keypoints contribute |
| Scoring.LoadedEmpty | ai-server/dance-ai-worker/scoring.py:44-51 | nothing is loaded iff no frame has keypoints |
| Scoring.LoadKeypoints | ai-server/dance-ai-worker/scoring.py:37-53 | the loop keeps the x, y of every frame with keypoints, in order, and skips the others |
| Scoring.EveryFifth | ai-server/dance-ai-worker/scoring.py:162 | `path[::5]`: ⌈n/5⌉ elements, the k-th being the path's element 5k |
| Scoring.FirstMax | ai-server/dance-ai-worker/scoring.py:182 | `max(d, key=d.get)` on an insertion-ordered dictionary: an index of the largest value with every earlier value strictly smaller |
| Scoring.FirstMaxUnique | ai-server/dance-ai-worker/scoring.py:182 | any index that is a largest value with every earlier one strictly smaller is the one chosen |
| Scoring.Bump | ai-server/dance-ai-worker/scoring.py:183 | the counter's keys keep their order and a new part is appended at the end; the total count grows by one |
| Scoring.MostWrongPart | ai-server/dance-ai-worker/scoring.py:196 | "None" iff the counter is empty; otherwise the name of the first part with the largest count |
| Scoring.Vote | ai-server/dance-ai-worker/scoring.py:182-183 | each sampled pair adds exactly one vote, and only for one of the five body parts |
| Scoring.LargeErrors | ai-server/dance-ai-worker/scoring.py:186-193 | at most one timeline entry per remaining pair |
| Scoring.AnalysisAfterCounter | ai-server/dance-ai-worker/scoring.py:162-183 | from any prefix, the counter gains exactly one vote per remaining pair and only ever holds the five body parts |
| Scoring.AnalysisAfterTimeline | ai-server/dance-ai-worker/scoring.py:162-193 | from any prefix, the timeline grows by exactly the entries of the remaining pairs whose total error exceeds 0.5, in order |
| Scoring.AnalysisAfterStep | ai-server/dance-ai-worker/scoring.py:162-193 | one iteration advances the analysis by one pair |
| Scoring.NoteThenLarge | ai-server/dance-ai-worker/scoring.py:186-193 | noting one pair and then the rest gives the same timeline as noting from that pair on |
| Scoring.AnalysisCounts | ai-server/dance-ai-worker/scoring.py:157-193 | the counter holds one vote per sampled pair, only for the five parts, and the timeline is exactly the over-threshold entries in path order |
| Scoring.LargeErrorsAboveThreshold | ai-server/dance-ai-worker/scoring.py:186 | every timeline entry has a total error above 0.5 |
| Scoring.AnalysePairs | ai-server/dance-ai-worker/scoring.py:157-193 | the sampling loop computes exactly the counter and timeline of the analysis |
| Scoring.CalculateScore | ai-server/dance-ai-worker/scoring.py:118-211 | no result iff the user's or the expert's file has no keypoints; otherwise the clamped raw score (in [0, 100], the raw score when already in range), its grade, the timeline of the analysis and the most-wrong part of its counter |
| DebugAnalysis.Partner | ai-server/dance-ai-worker/testPY/debug_analysis.py:102 | the nose and any index past the 17 keypoints keep their place; every other keypoint has a different partner among 1..16 |
| DebugAnalysis.PartnerIsSwapPairs | ai-server/dance-ai-worker/testPY/debug_analysis.py:102-117 | the partner map exchanges the two sides of every listed pair and fixes every index in no pair |
| DebugAnalysis.PartnerTwice | ai-server/dance-ai-worker/testPY/debug_analysis.py:102 | swapping sides twice returns every joint to its place |
| DebugAnalysis.FlipX | ai-server/dance-ai-worker/testPY/debug_analysis.py:109-111 | a confident point has x reflected to 1 − x; y and confidence are kept; a point with confidence 0 or less is unchanged |
| DebugAnalysis.MirrorKeypoints | ai-server/dance-ai-worker/testPY/debug_analysis.py:108-118 | the new list has the same length, and position i holds the flipped point of i's left/right partner |
| DebugAnalysis.MirrorFrame | ai-server/dance-ai-worker/testPY/debug_analysis.py:104-118 | an invalid frame is untouched; a valid one keeps its index, timestamp, validity and keypoint count |
| DebugAnalysis.MirrorTwice | ai-server/dance-ai-worker/testPY/debug_analysis.py:95-118 | mirroring a frame twice gives the original frame |
| DebugAnalysis.Rotate | ai-server/dance-ai-worker/testPY/debug_analysis.py:125-130 | a quarter turn about (0.5, 0.5): the new offset from the centre is (y − 0.5, −(x − 0.5)); confidence is kept |
| DebugAnalysis.RotateFrame | ai-server/dance-ai-worker/testPY/debug_analysis.py:122-130 | an invalid frame is untouched; a valid one has every keypoint rotated and keeps everything else |
| DebugAnalysis.RotateFourTimes | ai-server/dance-ai-worker/testPY/debug_analysis.py:120-130 | four rotations give the original frame, and two give the point reflection through the centre |
| DebugAnalysis.FlipPoints | ai-server/dance-ai-worker/testPY/debug_analysis.py:109-111 | the in-place loop flips every point of the array |
| DebugAnalysis.SwapJoints | ai-server/dance-ai-worker/testPY/debug_analysis.py:114-117 | the copy-then-swap loop yields, at every position, the point of its partner |
| DebugAnalysis.ApplyMirror | ai-server/dance-ai-worker/testPY/debug_analysis.py:95-118 | every frame of the array is replaced by its mirrored frame |
| DebugAnalysis.ApplyRotation | ai-server/dance-ai-worker/testPY/debug_analysis.py:120-130 | every frame of the array is replaced by its rotated frame |
| DebugAnalysis.ScoreOrZero | ai-server/dance-ai-worker/testPY/debug_analysis.py:83-93 | the returned score when the call returns one, and 0 after an exception or an empty result |
| DebugAnalysis.CompareIntended | ai-server/dance-ai-worker/testPY/debug_analysis.py:87-90 | with the scorer's real entry point, an empty side scores 0 and otherwise the scorer's score is used |
| DebugAnalysis.BestVariant | ai-server/dance-ai-worker/testPY/debug_analysis.py:58-70 | the mirror iff it ties or beats both others; the rotation iff it ties or beats the original and strictly beats the mirror; the original iff it strictly beats both |
| DebugAnalysis.DiagnosisAsWrittenIsAlwaysMirror | ai-server/dance-ai-worker/testPY/debug_analysis.py:83-93 | as written, every scorer call raises, every score is 0, and the diagnosis is always the mirror |
| DebugAnalysis.Diagnose | ai-server/dance-ai-worker/testPY/debug_analysis.py:42-70 | with the intended scorer call, the chosen variant scores at least as well as the other two |
| DebugAnalysis.DiagnoseKeepsBetterOriginal | ai-server/dance-ai-worker/testPY/debug_analysis.py:58-70 | a strictly better original score keeps the original |
| DebugAnalysis.RunDebugAnalysis | ai-server/dance-ai-worker/testPY/debug_analysis.py:38-70 | the chosen variant is the diagnosis, and the frames handed on are the user's frames, or their mirrored or rotated copies, to match it |
| SqsBridge.In | ai-server/dance-ai-worker/sqs_bridge.py:34 | `name in v` raises TypeError iff v is not a dictionary, list or string; on a dictionary it tests the keys |
| SqsBridge.Get | ai-server/dance-ai-worker/sqs_bridge.py:41-42 | `v[name]` gives the field iff v is a dictionary holding the key, and raises KeyError iff it is a dictionary without it |
| SqsBridge.First | ai-server/dance-ai-worker/sqs_bridge.py:40 | `v[0]`: the first item of a non-empty list; IndexError on an empty list or string; KeyError on a dictionary |
| SqsBridge.ParseS3Event | ai-server/dance-ai-worker/sqs_bridge.py:25-54 | a KeyError never leaves the parser; only other exceptions propagate |
| SqsBridge.ParseNotification | ai-server/dance-ai-worker/sqs_bridge.py:30-51 | a minimal notification yields its bucket name and object key; a test event and a body that is not JSON are ignored |
| SqsBridge.ParseRecord | ai-server/dance-ai-worker/sqs_bridge.py:39-43 | any body, not the test event, whose first record reaches a bucket name and an object key yields those two, whatever other fields each level carries and whatever records follow |
| SqsBridge.ParsedBucketComesFromRecord | ai-server/dance-ai-worker/sqs_bridge.py:34-43 | conversely, a parse that yields a bucket came from a dictionary body, not the test event, whose first record holds the s3/bucket/name and s3/object/key chain, and the pair is that name and key |
| SqsBridge.UnknownObjectIgnored | ai-server/dance-ai-worker/sqs_bridge.py:34-47 | an object that is neither a test event nor has "Records" is ignored |
| SqsBridge.EmptyRecordsEscapes | ai-server/dance-ai-worker/sqs_bridge.py:39-40 | an empty "Records" list raises IndexError out of the parser |
| SqsBridge.MissingKeyIgnored | ai-server/dance-ai-worker/sqs_bridge.py:40-54 | a first record missing any of "s3", "bucket", "name", "object" or "key" (in lookup order) is ignored through the KeyError handler |
| SqsBridge.RecordsDictionaryIgnored | ai-server/dance-ai-worker/sqs_bridge.py:40-54 | a "Records" dictionary raises KeyError at `[0]`, and the body is ignored |
| SqsBridge.Parses | ai-server/dance-ai-worker/sqs_bridge.py:83-87 | one parse per message, in order |
| SqsBridge.Task | ai-server/dance-ai-worker/sqs_bridge.py:89-95 | the task of a dispatchable event names a truthy bucket and a truthy key |
| SqsBridge.TasksOf | ai-server/dance-ai-worker/sqs_bridge.py:89-95 | at most one task per parse |
| SqsBridge.HandledFrom | ai-server/dance-ai-worker/sqs_bridge.py:83-120 | the messages from n on are finished (parsed, task sent if any, deleted) up to, not including, the first that raises in the parser, in `delay` or in `delete_message` |
| SqsBridge.BatchAfterMeaning | ai-server/dance-ai-worker/sqs_bridge.py:83-120 | from any prefix, the loop deletes exactly the finished messages in order, breaks off iff one raised before the end, and has sent the tasks of the dispatchable finished ones plus the breaking one's when only its delete failed |
| SqsBridge.BatchDeletesHandledPrefix | ai-server/dance-ai-worker/sqs_bridge.py:83-120 | a batch deletes every message before the first that raises, and no others; the tasks sent are, in order, those of the dispatchable events among them, plus the breaking message's task when only its delete failed |
| SqsBridge.ReliableBatch | ai-server/dance-ai-worker/sqs_bridge.py:83-110 | with every client call succeeding and every body parsing, every message is deleted and every dispatchable event sent, in order |
| SqsBridge.TasksAreTruthy | ai-server/dance-ai-worker/sqs_bridge.py:89-95 | every task sent names a truthy bucket and key |
| SqsBridge.HandleBatch | ai-server/dance-ai-worker/sqs_bridge.py:83-120 | the loop over a batch, given the clients' replies, computes exactly the batch specification |
| VideoConverter.PathSplit | ai-server/dance-ai-worker/video_converter.py:25 | `os.path.split`: the tail is everything after the last "/" and holds no "/" |
| VideoConverter.TrimSlashes | ai-server/dance-ai-worker/video_converter.py:25 | the head's trailing slashes are removed: a prefix of the head that does not end in "/" |
| VideoConverter.PathJoin | ai-server/dance-ai-worker/video_converter.py:35 | `os.path.join` ends with the joined name |
| VideoConverter.SplitExt | ai-server/dance-ai-worker/video_converter.py:26 | `os.path.splitext`: root and extension concatenate back to the name, and the extension is empty or a single "." followed by no other "." |
| VideoConverter.ConvertToH264 | ai-server/dance-ai-worker/video_converter.py:16-79 | a missing file fails and runs nothing; a stem already ending in "_h264" succeeds and runs nothing; otherwise it writes `<stem>_h264.mp4` beside the input, tries the CPU encoder only after the GPU encoder failed, and succeeds iff one of them did |
| VideoConverter.JoinedName | ai-server/dance-ai-worker/video_converter.py:25-35 | splitting a joined path gives back the joined name |
| VideoConverter.ConvertedStem | ai-server/dance-ai-worker/video_converter.py:26-34 | the stem of a converted name is the original stem followed by "_h264" |
| VideoConverter.OutputIsSkipped | ai-server/dance-ai-worker/video_converter.py:28-35 | converting an output file again is skipped with success, so conversion is idempotent |
| VideoConverter.ConvertedIsSkipped | ai-server/dance-ai-worker/video_converter.py:28-31 | any existing file named `<stem>_h264.mp4` is skipped with success |
| VideoConverter.Glob | ai-server/dance-ai-worker/video_converter.py:97 | every match is a directory entry joined to the directory, whose name ends with the extension |
| VideoConverter.BelowIrreflexive | ai-server/dance-ai-worker/video_converter.py:100 | no path sorts before itself |
| VideoConverter.BelowTransitive | ai-server/dance-ai-worker/video_converter.py:100 | string order is transitive |
| VideoConverter.BelowTotal | ai-server/dance-ai-worker/video_converter.py:100 | any two different paths are ordered one way or the other |
| VideoConverter.Insert | ai-server/dance-ai-worker/video_converter.py:100 | inserting into a strictly sorted list keeps it strictly sorted and adds exactly the new element |
| VideoConverter.SortedUnique | ai-server/dance-ai-worker/video_converter.py:100 | `sorted(list(set(xs)))`: strictly sorted and holding exactly the elements of xs |
| VideoConverter.SortedHasNoDuplicates | ai-server/dance-ai-worker/video_converter.py:100 | a strictly sorted list has no duplicates |
| VideoConverter.Successes | ai-server/dance-ai-worker/video_converter.py:114-118 | the number of successes is at most the number of files |
| VideoConverter.CollectVideos | ai-server/dance-ai-worker/video_converter.py:92-97 | the loop gathers the matches for each extension, in the order of the extensions |
| VideoConverter.ConvertAll | ai-server/dance-ai-worker/video_converter.py:114-118 | the loop counts exactly the files whose conversion succeeds, never more than there are files |
| VideoConverter.ProcessDirectory | ai-server/dance-ai-worker/video_converter.py:81-124 | a missing directory stops; no matching files stops; otherwise the sorted, de-duplicated matches are converted and the successes counted |
| KotlinBundler.SuffixesDisjoint | code_to_kotlin_kts.py:26-29 | a name ending in ".kts" does not end in ".kt", so the `elif` never shadows a script |
| KotlinBundler.KindOf | code_to_kotlin_kts.py:26-29 | a file is Kotlin source iff its name ends in ".kt", and a script iff it ends in ".kts" |
| KotlinBundler.InDirectory | code_to_kotlin_kts.py:24-29 | at most one path per file of the directory |
| KotlinBundler.FoundHaveKind | code_to_kotlin_kts.py:23-29 | every collected path joins a walked directory to one of its files, whose name has the collected kind |
| KotlinBundler.InDirectoryHaveKind | code_to_kotlin_kts.py:24-29 | every path collected from one directory joins it to one of its files of that kind |
| KotlinBundler.FoundKtKeepsKind | code_to_kotlin_kts.py:23-29 | the base name of every collected source path is again a ".kt" name |
| KotlinBundler.Collect | code_to_kotlin_kts.py:17-29 | the walk loop collects exactly the source paths and the script paths, in walk order |
| KotlinBundler.ChunkSize | code_to_kotlin_kts.py:43 | `ceil(n / 4)`: the least size with four chunks covering n files |
| KotlinBundler.ChunksFrom | code_to_kotlin_kts.py:44-45 | no slice is longer than the chunk size |
| KotlinBundler.Pad | code_to_kotlin_kts.py:48-49 | padding leaves at least four chunks |
| KotlinBundler.KtChunks | code_to_kotlin_kts.py:40-52 | exactly four source chunks |
| KotlinBundler.FinalChunks | code_to_kotlin_kts.py:56 | five chunks, the last holding all the scripts |
| KotlinBundler.ChunkCount | code_to_kotlin_kts.py:44-45 | slicing from start by size gives at most k slices once k sizes reach the end |
| KotlinBundler.ChunksCover | code_to_kotlin_kts.py:44-45 | the slices, concatenated, are exactly the files from start on |
| KotlinBundler.PadKeeps | code_to_kotlin_kts.py:48-49 | padding adds only empty chunks after the existing ones and gives four when there were at most four |
| KotlinBundler.KtChunksPartition | code_to_kotlin_kts.py:39-52 | the ceiling size never makes more than four slices, so the `[:4]` cut drops nothing: the four chunks concatenate to exactly the source list, each within the chunk size |
| KotlinBundler.PaddedChunkSize | code_to_kotlin_kts.py:48-49 | padding keeps every chunk within the size bound |
| KotlinBundler.FinalChunksCover | code_to_kotlin_kts.py:54-56 | the five chunks concatenate to the source files followed by the scripts |
| KotlinBundler.SplitKt | code_to_kotlin_kts.py:40-52 | the slicing and padding loops build exactly the four source chunks |
| KotlinBundler.SliceKt | code_to_kotlin_kts.py:41-45 | the stepping loop builds exactly the `ceil(n/4)`-sized slices of a non-empty list |
| KotlinBundler.PadChunks | code_to_kotlin_kts.py:48-49 | the padding loop appends exactly the empty chunks the padding specification adds |
| KotlinBundler.Heading | code_to_kotlin_kts.py:88-102 | a block's heading carries its number and its path |
| KotlinBundler.Basename | code_to_kotlin_kts.py:84 | the base name is the path's longest "/"-free tail, preceded by "/" when shorter than the path |
| KotlinBundler.BasenameIsSplitTail | code_to_kotlin_kts.py:84 | the base name is the tail of `os.path.split` |
| KotlinBundler.FileBlocks | code_to_kotlin_kts.py:78-104 | one block per file, read error or not |
| KotlinBundler.FileBlockAt | code_to_kotlin_kts.py:78-104 | the k-th block is numbered start + k and describes the k-th file |
| KotlinBundler.FileBlockNumbers | code_to_kotlin_kts.py:78-104 | the blocks of a chunk are numbered consecutively from the counter |
| KotlinBundler.OutputsFrom | code_to_kotlin_kts.py:61-109 | one outcome per remaining output file |
| KotlinBundler.OutputNumbers | code_to_kotlin_kts.py:59-109 | the code blocks written from any output on are numbered consecutively from the counter, one per file in the outputs that opened |
| KotlinBundler.AllWritten | code_to_kotlin_kts.py:61-109 | when every output opens, one number is used per file |
| KotlinBundler.WriteFiles | code_to_kotlin_kts.py:78-104 | the per-file loop writes exactly the chunk's blocks and advances the counter by the number of files |
| KotlinBundler.WriteOutput | code_to_kotlin_kts.py:62-109 | one output file: a placeholder for an empty chunk, the chunk's blocks otherwise, nothing when the open fails |
| KotlinBundler.WriteChunks | code_to_kotlin_kts.py:59-109 | the five-output loop writes exactly the specified outputs, starting the counter at 1 |
| KotlinBundler.Bundle | code_to_kotlin_kts.py:4-109 | nothing is written iff no ".kt" or ".kts" file was found |
| KotlinBundler.ChunkNumbering | code_to_kotlin_kts.py:59-109 | when every output opens, the code numbers run 1, 2, … with one per bundled file |
| KotlinBundler.BundleNumbering | code_to_kotlin_kts.py:4-109 | when every output opens, the numbers run consecutively from 1 across all five files, one per source file and script found |
| KotlinBundler.CollectAndSplit | code_to_kotlin_kts.py:4-109 | the script computes exactly the bundle specification |
| Strings.IndexOfFrom | kpop-android-app/app/src/main/java/com/example/kpopdancepracticeai/ui/test/IntegrationTestScreen.kt:121-123 | -1 or an index at or after the start where the needle occurs |
| Strings.IndexOfFromNoEarlier | kpop-android-app/app/src/main/java/com/example/kpopdancepracticeai/ui/test/IntegrationTestScreen.kt:121-123 | no occurrence lies between the start and the index found, and none at all when -1 is returned |
| Strings.ContainsIff | kpop-android-app/app/src/main/java/com/example/kpopdancepracticeai/ui/test/IntegrationTestScreen.kt:121-123 | `contains` holds iff the needle occurs somewhere |
| Strings.LastIndexOf | kpop-android-app/app/src/main/java/com/example/kpopdancepracticeai/data/util/FilenamePaser.kt:18 | -1 iff the character is absent; otherwise a position holding it with none after it |
| Strings.Split | kpop-android-app/app/src/main/java/com/example/kpopdancepracticeai/data/util/FilenamePaser.kt:21 | `split` never returns an empty list |
| Strings.JoinSplit | kpop-android-app/app/src/main/java/com/example/kpopdancepracticeai/data/util/FilenamePaser.kt:21 | joining the pieces of a split with the delimiter gives back the string |
| Strings.SplitJoin | kpop-android-app/app/src/main/java/com/example/kpopdancepracticeai/ui/RecordScreenMobile.kt:286 | pieces free of the delimiter's first character, joined and split again, come back unchanged |
| Strings.SplitLast | kpop-android-app/app/src/main/java/com/example/kpopdancepracticeai/data/PresignedUrlUploader.kt:190 | the last piece of a split on one character is the text after its last occurrence |
| Strings.AfterLastSuffix | kpop-android-app/app/src/main/java/com/example/kpopdancepracticeai/data/PresignedUrlUploader.kt:190 | the text after the last separator holds no separator and is a suffix of the string, preceded by the separator when shorter |
| Strings.RemoveChar | kpop-android-app/app/src/main/java/com/example/kpopdancepracticeai/ui/RecordScreenMobile.kt:274 | `replace(c, "")` keeps exactly the characters other than c, and never lengthens the string |
| Strings.RemoveCharAbsent | kpop-android-app/app/src/main/java/com/example/kpopdancepracticeai/ui/RecordScreenMobile.kt:274 | a string without c comes back unchanged |
| Strings.RemoveCharConcat | kpop-android-app/app/src/main/java/com/example/kpopdancepracticeai/ui/RecordScreenMobile.kt:274 | removal distributes over concatenation, so the characters kept stay in order and in number |
| Strings.Digits | kpop-android-app/app/src/main/java/com/example/kpopdancepracticeai/ui/RecordScreenMobile.kt:277 | `filter { it.isDigit() }` keeps exactly the digits, and never lengthens the string |
| Strings.DigitsOfDigits | kpop-android-app/app/src/main/java/com/example/kpopdancepracticeai/ui/RecordScreenMobile.kt:277 | an all-digit string comes back unchanged |
| Strings.DigitsConcat | kpop-android-app/app/src/main/java/com/example/kpopdancepracticeai/ui/RecordScreenMobile.kt:277 | filtering distributes over concatenation, so the digits kept stay in order and in number |
| Strings.LeadingBlanks | kpop-android-app/app/src/main/java/com/example/kpopdancepracticeai/ui/AppNavigation.kt:554 | the count of leading whitespace characters: all of them whitespace, the next one not |
| Strings.TrimStart | kpop-android-app/app/src/main/java/com/example/kpopdancepracticeai/ui/AppNavigation.kt:554 | a suffix of the string, preceded in it only by whitespace, that does not start with whitespace |
| Strings.TrimEnd | kpop-android-app/app/src/main/java/com/example/kpopdancepracticeai/ui/AppNavigation.kt:554 | a prefix of the string, followed in it only by whitespace, that does not end with whitespace |
| Strings.Trim | kpop-android-app/app/src/main/java/com/example/kpopdancepracticeai/ui/AppNavigation.kt:554 | `trim()` is a slice of the string with only whitespace around it, and neither starts nor ends with whitespace |
| Strings.NatToString | kpop-android-app/app/src/main/java/com/example/kpopdancepracticeai/ui/RecordScreenMobile.kt:283-286 | the decimal text of a number is a non-empty run of digits |
| Strings.NatToStringValue | kpop-android-app/app/src/main/java/com/example/kpopdancepracticeai/ui/RecordScreenMobile.kt:283-286 | the decimal text reads back as the number |

## Left out

- Compose UI rendering, Firebase/Google sign-in, Room wiring, CameraX, ExoPlayer, MediaStore and OpenCV capture and drawing. These are presentation or foreign calls. The overlay's decisions are modelled; its drawing is not.
- YOLO inference and the tracker itself. Each frame's boxes, track ids and keypoints are inputs.
- Network and cloud clients: Retrofit, OkHttp, `HttpURLConnection`, boto3, Celery and Redis, and the ffmpeg subprocesses. Their results are parameters (success flags, reply sequences, oracle functions). In the queue bridge these are a per-message pair of replies: whether `download_video_task.delay` returned and whether `delete_message` returned.
- SqsBridge.HandleBatch: `receive_message` and its `'Messages' not in response` check, the `message['MessageId']` and `message['Body']` reads, and the sleep after an error are not modelled. The batch is the list of received messages.
- Concurrency and wall-clock time: coroutines, `delay`, `LaunchedEffect`, long polling and `time.sleep`. Polling, syncing and the stage script are sequential steps over input sequences. Each poll reply is a function of the attempt number.
- The numerics of `scoring.py`: `normalize_pose`, `extract_feature_vectors`, `np.exp` and `fastdtw`. The raw score, the DTW path and each pair's per-part errors are inputs.
- Floating point. Coordinates, scores and progress are exact reals. Distances are compared squared, which is equivalent because both sides are non-negative.
- PoseTypes.Round: the result is the exact decimal, while `float(...)` stores the nearest double to it. The model rounds the exact value of its real input, as Python formats the exact value of a float.
- Scoring.CalculateScore: does not model `round(final_score, 1)`, nor the rounding of timeline times and errors to two decimals.
- Strings.Digits: keeps only the ASCII digits 0-9. Kotlin's `isDigit` also accepts other Unicode decimal digits.
- Strings.Trim: uses a fixed table of whitespace code points for Kotlin's `isWhitespace`.
- URL encoding and decoding in `AppNavigation` are function parameters (`encode`, `decode`). The library round-trip is assumed only where a lemma takes it as a requirement.
- JSON text decoding. `SqsBridge` takes the decoded body, or `None` for text that is not JSON. Other DTOs are already-decoded values.
- Exceptions other than those the source handles by type. Examples are an `open` or `write` failure in the Python scripts and an ffmpeg failure other than `CalledProcessError`. The chunk writer models only a failed `open` of an output file.
- DebugAnalysis.MirrorKeypoints: requires at least 17 keypoints in a valid frame. With fewer, the source raises `IndexError` in the swap loop, and that is not modelled.
- The `from scoring import Scoring` line names a class that `scoring.py` does not define. It appears in `debug_analysis.py`, `test.py:7` and `calibration_test.py:12`, so each of these scripts stops at import, before any tracking. `test.py:411-417` and `calibration_test.py:255-292` also call `scorer.compare` and read `total_score`, which `scoring.py` does not provide either. `TestTracker`, `CalibrationTest` and `DebugAnalysis` model these scripts' functions in isolation, as they would run with the import resolved. The scorer calls in `test.py` and `calibration_test.py` are not modelled (see "Findings" for the same call in `debug_analysis.py`).
- `os.walk` order, `os.listdir` order and `glob` matching details. Directory listings are input sequences. A glob match is a name ending in the extension. `os.path.abspath` is the identity.
- The interactive `cv2.selectROI` and `input()` calls. The region and the typed answers are inputs.
- SQL result order other than `ORDER BY practiceDate DESC`. Flow-returning queries are modelled as one-shot reads of the table.
- Integer widths. Kotlin `Int`/`Long` and the Room row id are unbounded integers, so overflow is not modelled.
- Static mock data, test fixtures, glue scripts and the drawing-only overlay scripts.

## Findings

| source | as written | input that shows it | evidently intended | confidence | as-written member | corrected member |
|---|---|---|---|---|---|---|
| ai-server/dance-ai-worker/testPY/debug_analysis.py:87-90 | `_calculate_score` calls `scorer.compare(...)` and reads `result['total_score']`. The scorer defines neither, so every call raises, the bare `except` returns 0, all three variants score 0, and the tie rule always reports a mirror problem | any user and expert files (with the import resolved) | call `calculate_score` and read its score, so the variant with the best score is reported | high, not executed | `DebugAnalysis.DiagnosisAsWrittenIsAlwaysMirror` | `DebugAnalysis.Diagnose` |
