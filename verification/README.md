# Atlassian Cloud backup — a Dafny model

This project models the decision logic of atlassian-cloud-backup, a tool that
keeps a daily copy of one or more Atlassian Cloud sites. For each site the
tool does three things:

- It asks Jira for its last export task and reuses that task when it is less
  than 24 hours old, or starts a new export otherwise.
- It asks Confluence for its backup progress and reuses a finished backup
  less than a week old, or starts a new one.
- It downloads each archive into a folder named after the site, resuming
  partial downloads. It then records what it fetched in a per-site JSON
  status file, so that the next run skips a Jira export it has already
  downloaded.

The model covers three versions of this flow found in the repository:

- **The package.** Its HTTP helper, Jira and Confluence clients, file manager
  and controller are the modules Transport, Download, Polling, Jira,
  Confluence, Layout, StatusStore and Controller.
- **The later file manager** of the `src/` tree. It puts the instance folder
  under an optional target directory and keeps the status file inside it.
  This is SrcLayout.
- **The earlier single-file script.** It has its own copies of the same flow.
  This is Monolith.

The entry loop over the configured sites is Driver.

Each remote reply is an input to the model, never a call:

- JSON bodies are `Dict` values.
- HTTP exchanges are `Result<Response>`.
- Poll loops are finite sequences of replies. They end in `Polling` when the
  replies run out, because the tool itself polls forever.
- Exceptions are `Error` values. `SystemExit` is kept apart because the
  loop's `except Exception` does not catch it.
- The current time is an integer number of milliseconds.
- The current date is a `Date` parameter.
- ISO timestamp text is abstracted as a pair of `format`/`parse` functions.
- The status file is the decoded JSON object or `None` when the file is
  missing.

Supporting modules:

- **Values:** the value, error and result types, and Python truthiness.
- **PyText:** `str.strip`, `str.split`, `int()`, `str()`, and `upper` and
  `lower` on ASCII.
- **PyPath:** `posixpath.join`, `basename` and `splitext`.

## Model

| member | source | states |
|---|---|---|
| Transport.Request | atlassian_cloud_backup/utils/http_utils.py:21-40 | A reply with a status in 400–599 raises HTTPError carrying that status. Any other reply comes back unchanged, and a failed request propagates its exception. |
| PyText.LStrip | atlassian_cloud_backup/utils/file_utils.py:13 | The result is a suffix of the input. Every character removed is in the drop set. The result does not start with one. |
| PyText.RStrip | atlassian_cloud_backup/jira/client.py:75 | `rstrip` returns a prefix. Every character removed is in the drop set. The result does not end with one. |
| PyText.Upper | atlassian_cloud_backup/jira/client.py:159 | `upper()` keeps the length and maps every character through the ASCII upper-case table. |
| PyText.Lower | atlassian_cloud_backup/utils/file_utils.py:84 | `lower()` keeps the length and maps every character through the ASCII lower-case table. |
| PyText.Split | main.py:40 | `split(',')` yields at least one piece. No piece contains the separator. Joining the pieces with the separator gives back the input. |
| PyText.SplitJoin | main.py:40 | Splitting the join of separator-free pieces gives back exactly those pieces, so split and join are inverse. |
| PyText.SplitPrefix | main.py:40 | Splitting `p + sep + t` yields `p` followed by the pieces of `t`. |
| PyText.Show | atlassian_cloud_backup/jira/client.py:110 | `str(n)` is a run of decimal digits whose value is n, with no leading zero. |
| PyText.ParseInt | main.py:49 | `int(text)` succeeds exactly when the text, with surrounding whitespace stripped, is an optional sign followed by digits with single underscores between them. The value is that digit string read in base ten, negated after a '-'. Every failure is a ValueError. |
| PyText.ParseShowInt | main.py:49 | `int(str(i)) == i` for every integer i. |
| PyText.StripSpaceIdempotent | main.py:40 | `strip()` applied twice equals `strip()` applied once. |
| PyText.ParseIntOfStripped | atlassian_cloud_backup/jira/client.py:80-86 | `int()` ignores surrounding whitespace, so `int(t.strip()) == int(t)`. Blank text never parses. |
| Values.Truthy | atlassian_cloud_backup/jira/client.py:59 | Python truthiness: None, False, 0 and the empty string are false, every other value is true. |
| PyText.IntOf | atlassian_cloud_backup/jira/client.py:136 | `int(v)` keeps an int, parses a string, and raises TypeError on None. |
| PyPath.BaseName | backup.py:295 | `basename` has no '/'. It is a suffix of the path, and a '/' precedes it whenever it is shorter than the path. |
| PyPath.JoinEndsWith | atlassian_cloud_backup/utils/file_utils.py:82-85 | `join(a, b)` ends with b. |
| PyPath.JoinExtends | src/atlassian_cloud_backup/utils/file_utils.py:36 | Joining a name without '/' keeps the directory as a prefix, and inserts one '/' when the directory does not end with one. |
| PyPath.BaseNameOfJoin | atlassian_cloud_backup/utils/file_utils.py:82-85 | The base name of `join(dir, name)` is `name` for a name without '/'. |
| PyPath.SplitExt | atlassian_cloud_backup/utils/file_utils.py:33 | `splitext` returns stem + extension == path. The extension is empty or one '.' followed by no further '.' or '/'. |
| Layout.DropScheme | atlassian_cloud_backup/utils/file_utils.py:11 | Removes a leading `https://`, or failing that `http://`, and nothing else. |
| Layout.ReplaceForbidden | atlassian_cloud_backup/utils/file_utils.py:12 | Each of `/ \ : * ? " < > \|` becomes '_'. Every other character and the length are kept. |
| Layout.Sanitize | atlassian_cloud_backup/utils/file_utils.py:9-13 | The folder name is the URL, scheme dropped and forbidden characters replaced, with runs of '_' cut from both ends and nothing else removed. It has no forbidden character and no leading or trailing '_'. It is never longer than the URL. |
| PyText.StripTrims | atlassian_cloud_backup/utils/file_utils.py:13 | `strip(chars)` removes a run of `chars` characters from each end and nothing else. |
| Layout.SanitizeIdempotent | atlassian_cloud_backup/utils/file_utils.py:9-13 | Sanitising a folder name again leaves it unchanged. |
| Layout.StatusFileName | atlassian_cloud_backup/utils/file_utils.py:30-34 | The per-site status file name is the base status file's name with `_<folder>` inserted before its extension, so `stem + ext` becomes `stem_<folder>ext`. It contains no '/', so it stays in the working directory. |
| Layout.StatusFileNamesDistinct | atlassian_cloud_backup/utils/file_utils.py:30-34 | Sites whose folder names differ get different status files. |
| Layout.Pad2 | atlassian_cloud_backup/utils/file_utils.py:84 | A zero-padded month or day field is all digits and reads back as the number. |
| Layout.ParseDateText | atlassian_cloud_backup/utils/file_utils.py:84 | The `%Y-%m-%d` text of a date reads back as that date, so different dates give different archive names. |
| Layout.DateText | atlassian_cloud_backup/utils/file_utils.py:84 | `strftime('%Y-%m-%d')`: the year, then month and day as two digits, joined by '-'. Layout.ParseDateText reads it back. |
| Layout.BackupFileName | atlassian_cloud_backup/utils/file_utils.py:84 | The archive name: the service lower-cased, `-backup-`, the date text and the extension. |
| Layout.PrepareBackupPath | atlassian_cloud_backup/utils/file_utils.py:78-85 | The archive path is never empty and ends with the archive name `<service lower-cased>-backup-<date><ext>`. |
| Layout.NoSlashInBackupFileName | atlassian_cloud_backup/utils/file_utils.py:84 | `<service>-backup-<date><ext>` contains no '/' when the service and extension have none. |
| Layout.BackupPathInFolder | atlassian_cloud_backup/utils/file_utils.py:78-85 | The archive path starts with the sanitised folder name. For a non-empty folder it is exactly `<folder>/<service lower-cased>-backup-<date><ext>`, and its base name is the archive name. |
| SrcLayout.Abs | src/atlassian_cloud_backup/utils/file_utils.py:36-39 | `abspath` of the empty path is the working directory. An absolute path is kept. A relative path is appended to the working directory, with one '/' between them unless the directory already ends with one. |
| SrcLayout.BackupFolder | src/atlassian_cloud_backup/utils/file_utils.py:32-42 | The instance folder's base name is the sanitised URL. With a target directory the folder lies below it. |
| SrcLayout.StatusFile | src/atlassian_cloud_backup/utils/file_utils.py:44-48 | The status file is the base status file's base name joined under the instance folder. SrcLayout.StatusFileInFolder states where it lies. |
| SrcLayout.PrepareBackupPath | src/atlassian_cloud_backup/utils/file_utils.py:86-93 | The archive name joined under the instance folder. SrcLayout.BackupPathInFolder states where it lies. |
| SrcLayout.StatusFileInFolder | src/atlassian_cloud_backup/utils/file_utils.py:44-48 | The status file lies inside the instance folder under the base status file's own name. |
| SrcLayout.BackupPathInFolder | src/atlassian_cloud_backup/utils/file_utils.py:86-93 | The archive lies inside the instance folder under `<service>-backup-<date><ext>`. |
| SrcLayout.StatusFilesDistinct | src/atlassian_cloud_backup/utils/file_utils.py:44-48 | Sites with different non-empty folder names keep their status in different files, whatever the target directory. |
| StatusStore.ConvertEntry | atlassian_cloud_backup/utils/file_utils.py:46-51 | Converting one timestamp key keeps every key and leaves every other entry untouched. |
| StatusStore.LoadStatus | atlassian_cloud_backup/utils/file_utils.py:36-52 | A missing file loads as {}. Loading raises TypeError exactly when a timestamp key holds a non-string. Otherwise it keeps every key and every other entry, and converts each timestamp text that parses. |
| StatusStore.SaveStatus | atlassian_cloud_backup/utils/file_utils.py:54-63 | Saving succeeds exactly when both timestamps, where present, are datetimes. It writes the Jira trio when the Jira timestamp is present and the Confluence pair when that one is. Timestamps are written as ISO text. |
| StatusStore.LoadAfterSave | atlassian_cloud_backup/utils/file_utils.py:36-63 | Loading what was saved gives back the saved entries. |
| StatusStore.SaveIsStable | atlassian_cloud_backup/utils/file_utils.py:54-63 | Saving the reloaded status writes the same JSON as the first save. |
| StatusStore.UnparsableTimestampBlocksSave | atlassian_cloud_backup/utils/file_utils.py:46-62 | A timestamp text that does not parse survives loading unchanged, and the next save then raises AttributeError. |
| StatusStore.LoadStatusDropping | atlassian_cloud_backup/utils/file_utils.py:46-51 | The corrected load fails exactly when the load above fails. It keeps every entry the load keeps except the unparsed timestamp texts, so its result can always be saved. |
| StatusStore.CleanLoadSaves | atlassian_cloud_backup/utils/file_utils.py:54-63 | Whatever the corrected load returns can be saved. |
| Polling.Await | atlassian_cloud_backup/jira/client.py:151-170 | The poll loop stops at the first terminal reply, with every earlier one pending. It raises the first exception that comes before any terminal reply. It is still polling exactly when every reply is pending. |
| Polling.AwaitStopsAt | atlassian_cloud_backup/jira/client.py:151-170 | Conversely, the first reply that is not pending decides the wait: an exception there is raised and a verdict there ends the wait with it. |
| Download.RangeHeaders | atlassian_cloud_backup/utils/http_utils.py:207-214 | No header is sent for an empty file. Otherwise a single `Range: bytes=<n>-` header is sent, naming the bytes already on disk. |
| Download.HandleRangeResponse | atlassian_cloud_backup/utils/http_utils.py:144-157 | The file is appended to exactly when bytes were on disk and the reply is 206, starting from those bytes. Any other case rewrites the file from 0. |
| Download.TallyWritten | atlassian_cloud_backup/utils/http_utils.py:159-183 | The byte count ends at the starting offset plus the body's length. |
| Download.TallyThreshold | atlassian_cloud_backup/utils/http_utils.py:163-181 | The next log threshold is the start plus one step per log line plus one. There are never more log lines than non-empty chunks. |
| Download.TallyLogs | atlassian_cloud_backup/utils/http_utils.py:172-181 | The k-th progress line is logged at or after the k-th threshold and never past the total. The logged counts strictly increase. |
| Download.TallyBounded | atlassian_cloud_backup/utils/http_utils.py:172-181 | With chunks no larger than the step, the count ends within one step below the next threshold. |
| Download.WriteChunk | atlassian_cloud_backup/utils/http_utils.py:166-182 | One chunk is appended to the file and the count grows by its length. A progress line naming the new count is logged, and the threshold moves up one step, exactly when the chunk is non-empty and the new count reaches the threshold. Otherwise the log and the threshold are unchanged. |
| Download.WriteChunks | atlassian_cloud_backup/utils/http_utils.py:165-183 | The file is the opened file followed by every chunk in order. The progress is the tally of the chunks. |
| Download.StreamToFile | atlassian_cloud_backup/utils/http_utils.py:159-183 | The same as WriteChunks, with the tally facts stated about the returned counters. |
| Download.TallyFacts | atlassian_cloud_backup/utils/http_utils.py:159-183 | All tally properties together. |
| Download.Account | atlassian_cloud_backup/utils/http_utils.py:166-182 | One chunk's effect on the progress: an empty chunk changes nothing; otherwise the count grows by its length and, when the count reaches the threshold, a line is logged and the threshold moves up one step. |
| Download.Tally | atlassian_cloud_backup/utils/http_utils.py:159-183 | The progress after a sequence of chunks, starting at the given count with the threshold one step above it. The Tally lemmas state its properties. |
| Download.Attempt | atlassian_cloud_backup/utils/http_utils.py:126-142 | Each attempt sends the range headers for the bytes on disk. An error reply or a refused connection leaves the file alone. A 206 on a partial file appends, any other success rewrites. The attempt fails exactly when the body was interrupted. |
| Download.RetryDownload | atlassian_cloud_backup/utils/http_utils.py:101-124 | There are at most six attempts. Every attempt but the last failed with a retriable fault. The loop stops on success, on a non-retriable error, or when retries run out. It sleeps 1, 2, 4, ... seconds between attempts and not after the last. |
| Download.WrapFailure | atlassian_cloud_backup/utils/http_utils.py:85-96 | An HTTP error is re-raised as it is. Anything else is wrapped in DownloadError. |
| Download.Retriable | atlassian_cloud_backup/utils/http_utils.py:13-19 | The retriable faults are exactly the four transient ones: IncompleteRead, ChunkedEncodingError, ConnectionError and Timeout. |
| Download.DownloadFile | atlassian_cloud_backup/utils/http_utils.py:42-99 | The download returns the file name exactly when the last attempt succeeded, and otherwise raises the wrapped last failure. |
| Download.AttemptStaysPrefix | atlassian_cloud_backup/utils/http_utils.py:136-157 | Against a server that serves the resource faithfully, an attempt keeps the file a prefix of the resource. A successful attempt leaves exactly the resource on disk. |
| Download.StartDiskIsPrefix | atlassian_cloud_backup/utils/http_utils.py:73-80 | Every attempt starts from a prefix of the resource. |
| Download.ResumeCorrect | atlassian_cloud_backup/utils/http_utils.py:66-124 | Resuming across retries never corrupts the file. Every successful attempt leaves the whole resource and reports its size. |
| Jira.FetchLastTaskId | atlassian_cloud_backup/jira/client.py:68-94 | The last task id is returned exactly when the request succeeded and its text parses as an integer. Any failure becomes None. |
| Jira.ReadTaskId | atlassian_cloud_backup/jira/client.py:80-91 | Blank text means no task. Text that parses is the task id. Anything else raises RuntimeError. |
| Jira.FetchShownTaskId | atlassian_cloud_backup/jira/client.py:80-88 | A reply holding `str(n)` is read back as task n. |
| Jira.ClassifyProgress | atlassian_cloud_backup/jira/client.py:158-168 | A non-string status raises AttributeError. Otherwise, after upper-casing, COMPLETE, DONE or SUCCESSFUL or a progress of 100 means success. FAILED or ERROR means failure. Anything else means keep waiting. |
| Jira.ClassifyIgnoresCase | atlassian_cloud_backup/jira/client.py:159 | The classification does not depend on the status's case. |
| Jira.Fresh | atlassian_cloud_backup/jira/client.py:234 | The reuse window: a task submitted at most 24 hours before now, the boundary included. |
| Jira.WaitForCompletion | atlassian_cloud_backup/jira/client.py:138-170 | Waiting returns the verdict of the first terminal reply, with all earlier replies pending. It raises the first exception that comes before any terminal reply, and polls on while every reply is pending. |
| Jira.TriggerBackup | atlassian_cloud_backup/jira/client.py:114-136 | A failed request propagates. No truthy `taskId` or `task_id` raises RuntimeError. A truthy `taskId` wins and is converted with `int()`. Otherwise a truthy `task_id` is converted with `int()`. |
| Jira.TriggerReadsShownId | atlassian_cloud_backup/jira/client.py:131-136 | A reply whose id key holds `str(n)` for n ≠ 0 yields task n. |
| Jira.GetDownloadUrl | atlassian_cloud_backup/jira/client.py:172-197 | A missing or falsy `result` raises RuntimeError and a failed request propagates. The URL is the instance URL without trailing slashes, then `/plugins/servlet/`, then `str(result)`. |
| Jira.DownloadUrlIgnoresTrailingSlash | atlassian_cloud_backup/jira/client.py:183 | A trailing slash on the instance URL does not change the download URL. |
| Jira.FetchArchive | atlassian_cloud_backup/jira/client.py:199-210 | A failed URL lookup comes first. After it, a download failure propagates. Success returns the URL the archive was fetched from. |
| Jira.CheckExistingTask | atlassian_cloud_backup/jira/client.py:212-252 | A failed task-info request propagates. A falsy `submitted` raises. A non-numeric one raises TypeError. A task older than 24 hours proposes nothing. For a fresh task, an exception while waiting propagates and a failed export proposes nothing. A successful one whose archive downloads proposes its own submission time, its id and the archive path, and a download failure propagates. Every run first consults that task and never triggers an export. |
| Jira.CreateNewBackup | atlassian_cloud_backup/jira/client.py:254-276 | A new export is always triggered first and a trigger failure propagates. An exception while waiting propagates, and a failed export proposes nothing. Entries are proposed exactly when the export succeeded and its archive downloaded. They carry the current time and the new task's id, and a download failure propagates. |
| Jira.Decide | atlassian_cloud_backup/jira/client.py:42-66 | Skips when the server's task id equals the recorded one and a file is recorded. It consults the last task only when its id is truthy, and creates a new export exactly when that consultation proposed nothing. |
| Jira.AlreadyProcessed | atlassian_cloud_backup/jira/client.py:49-50 | A server task id is present, equals the recorded `jira_task_id`, and a truthy `jira_file` is recorded. |
| Jira.ProcessBackup | atlassian_cloud_backup/jira/client.py:32-66 | Proposed entries are the three Jira keys with the archive path. A reused task is fresh and is the server's last task. A new export is stamped with the current time. Only the server's last task is ever consulted. |
| Jira.ReusesFreshTask | atlassian_cloud_backup/jira/client.py:58-64 | A fresh last task that finished successfully and downloads is reused: the run proposes its id, its submission time and the archive path, and triggers no export. |
| Jira.NoReuseMeansNewExport | atlassian_cloud_backup/jira/client.py:58-64 | When the consulted task proposes nothing, the run continues with a new export and its result is that export's. |
| Jira.ProcessBackupShape | atlassian_cloud_backup/jira/client.py:42-66 | The decision procedure yields only entries of that shape, for any server id. |
| Jira.SkipsProcessedTask | atlassian_cloud_backup/jira/client.py:49-53 | An already processed task makes the whole step a no-op. |
| Jira.NoIdMeansNewExport | atlassian_cloud_backup/jira/client.py:58-64 | With no last task, or task 0, the step is exactly a new export. |
| Jira.RerunSkips | atlassian_cloud_backup/jira/client.py:45-53 | After a run that recorded a task, a rerun against a server still reporting that task does nothing. The step is idempotent. |
| Confluence.GetBackupStatus | atlassian_cloud_backup/confluence/client.py:55-76 | A 204 reply, or a 401/403/404 status on success or as an HTTP error, means "unavailable" (None). Other successes return the body. Every other error propagates. |
| Confluence.CanUseExisting | atlassian_cloud_backup/confluence/client.py:215-239 | An existing backup is reused exactly when `isOutdated` is present and false, the status is COMPLETE, and `time` is a non-zero number newer than a week. A non-numeric `time` is not reused. |
| Confluence.ReuseIsMonotone | atlassian_cloud_backup/confluence/client.py:229-236 | A backup reusable now was reusable at any earlier time. |
| Confluence.WeekOldIsStale | atlassian_cloud_backup/confluence/client.py:231-235 | A backup exactly one week old is not reused. |
| Confluence.ClassifyProgress | atlassian_cloud_backup/confluence/client.py:116-125 | COMPLETE, exactly as written, means success. FAILED or ERROR means failure. A missing status counts as "". |
| Confluence.LowerCaseKeepsWaiting | atlassian_cloud_backup/confluence/client.py:120 | Unlike Jira's check, a lower-case `complete` keeps the loop waiting. |
| Confluence.WaitForCompletion | atlassian_cloud_backup/confluence/client.py:103-127 | Waiting returns the verdict of the first terminal reply, with all earlier replies pending. It raises the first exception that comes before any terminal reply, and polls on while every reply is pending. |
| Confluence.GetDownloadDetails | atlassian_cloud_backup/confluence/client.py:174-198 | A falsy `filename` gives no details. Otherwise the URL is the instance URL without trailing slashes, then '/', then the filename. The local file is the prepared Confluence archive path. |
| Confluence.WaitForFile | atlassian_cloud_backup/confluence/client.py:129-148 | A file comes back only from the first successful reply, with all earlier replies pending, and only when the download did not fail. Its local name is the Confluence archive path. |
| Confluence.WaitForFileStopsAt | atlassian_cloud_backup/confluence/client.py:129-148 | Conversely, the first reply that is not pending decides: an exception propagates and a failed backup gives nothing. A complete reply without a filename gives nothing. With one, a download failure propagates and a successful download gives that reply's details. |
| Confluence.Fetched | atlassian_cloud_backup/confluence/client.py:257-262 | The run finishes exactly when the wait did, and an exception while waiting propagates. Entries are proposed exactly when a file was fetched. They carry the given time and that file, the download is appended to the earlier effects, and fetching triggers nothing. |
| Confluence.UseExisting | atlassian_cloud_backup/confluence/client.py:241-263 | Reusing a backup never triggers one. A non-numeric `time` raises TypeError. Otherwise an exception while waiting for the file propagates. No file proposes nothing. A downloaded file proposes the backup's own time and the archive path. |
| Confluence.CreateNew | atlassian_cloud_backup/confluence/client.py:265-283 | A backup is triggered first and a trigger failure propagates. An exception while waiting propagates, and a failed backup proposes nothing. After a completed backup, a downloaded file proposes the current time and the archive path, and no file proposes nothing. |
| Confluence.ProcessBackup | atlassian_cloud_backup/confluence/client.py:32-53 | An unavailable Confluence proposes nothing and a status error propagates. A reusable backup is reused and a new one is created otherwise, so a finished run triggers a backup exactly when the existing one is not reusable. Entries are the two Confluence keys with the archive path. A reused backup is less than a week old. A new one is stamped now. |
| Confluence.UnavailableIgnoresRest | atlassian_cloud_backup/confluence/client.py:43-48 | Once Confluence is unavailable, no later reply matters. |
| Controller.Construct | atlassian_cloud_backup/backup_controller.py:35-37 | The controller is built exactly when all three constructor calls bind to their signatures. A call that does not bind raises TypeError, and the Jira client's call is checked first. |
| Controller.AsWrittenConstructionFails | atlassian_cloud_backup/backup_controller.py:35-37 | Five positional arguments to the four-parameter Jira client raise TypeError. The package's file manager also has no `backup_target_directory`. |
| Controller.CorrectedConstructionSucceeds | atlassian_cloud_backup/backup_controller.py:35-37 | With the target directory given only to the file manager that accepts it, construction succeeds. |
| Controller.LogLastBackupTimes | atlassian_cloud_backup/backup_controller.py:76-95 | Logging fails with AttributeError exactly when a truthy timestamp is not a datetime. |
| Controller.PersistableLogs | atlassian_cloud_backup/backup_controller.py:76-95 | A saveable status always logs. |
| Controller.Persist | atlassian_cloud_backup/backup_controller.py:68-74 | The file is written exactly when some step proposed entries, and the written keys are those of the merged status. Saving fails exactly when the merged status holds a non-datetime timestamp. The effects are Jira's followed by Confluence's. |
| Controller.Orchestrate | atlassian_cloud_backup/backup_controller.py:42-74 | A load error propagates, then a logging error. An exception from Jira, or from Confluence after Jira finished, ends the run with that exception. When the load, the logging and both steps finish, the run's result is the persist step's: its orchestration, or its save error raised. Conversely a finished run means all of these finished. |
| Controller.DeltasDisjoint | atlassian_cloud_backup/backup_controller.py:60-66 | The two services propose disjoint keys, so the order of the updates does not matter. |
| Controller.ChangedIffEntries | atlassian_cloud_backup/backup_controller.py:68-74 | The run reports a change exactly when it wrote the file, and that happens exactly when some service proposed entries. |
| Controller.PersistContents | atlassian_cloud_backup/backup_controller.py:69-71 | New entries are written as proposed, with timestamps formatted. A service that proposed nothing has its earlier entries written back as loaded. |
| Controller.PersistJiraEntries | atlassian_cloud_backup/backup_controller.py:69-71 | The Jira half of PersistContents. |
| Controller.PersistConfluenceEntries | atlassian_cloud_backup/backup_controller.py:69-71 | The Confluence half of PersistContents. |
| Controller.WrittenContents | atlassian_cloud_backup/backup_controller.py:52-74 | The written file names the Jira archive and task, and the Confluence archive, that the run fetched. |
| Controller.JiraFailureAborts | atlassian_cloud_backup/backup_controller.py:60-66 | A Jira step that raises aborts the run with that error, whatever Confluence would answer. |
| Controller.UnparsableTimestampStopsRun | atlassian_cloud_backup/backup_controller.py:52-58 | A non-empty timestamp text that does not parse makes the run fail with AttributeError. |
| Controller.EmptyTimestampBlocksSave | atlassian_cloud_backup/backup_controller.py:69-71 | An empty Confluence timestamp passes logging but blocks the save of new Jira entries. |
| Monolith.FetchLastJiraTaskId | backup.py:91-109 | In the script, a request failure propagates instead of becoming None. Otherwise the reply is read as in the package. |
| Monolith.ShouldBackup | backup.py:87-88 | A backup is due when strictly more than 24 hours have passed since the last one. |
| Monolith.ShouldBackupIsStale | backup.py:87-88 | `should_backup` holds exactly when the last backup is outside the 24-hour reuse window. |
| Monolith.JiraBackupPath | backup.py:178-187 | The draft's Jira archive: `jira-backup-<date>.zip` joined under the sanitised folder. |
| Monolith.JiraBackupPathAgrees | backup.py:178-187 | The script's Jira archive path is the package's. |
| Monolith.HandleJira | backup.py:402-467 | The script's Jira step: a failed or unreadable id request propagates, and an already processed task is skipped. A missing `submitted` exits with status 1. Otherwise the proposed entries have the same shape and stamps as the package's. Its full decision is stated by Monolith.HandleJiraAgrees and Monolith.HandleJiraReusesFreshTask. |
| Monolith.HandleJiraAgrees | backup.py:402-467 | When the id request succeeds and `submitted` is present, the script's Jira step equals the package's, provided each archive download ends with the same outcome in both. |
| Monolith.HandleJiraReusesFreshTask | backup.py:402-457 | In the script too, a fresh last task that finished and downloads is reused with its own submission time and id, and no export is triggered. |
| Monolith.LocalConfluenceFile | backup.py:295 | The local Confluence file is `<folder>/<basename of the remote file>` for a non-empty site folder; its base name is the remote one; a non-text remote name raises TypeError. |
| Monolith.WaitForConfluenceFile | backup.py:267-321 | A file comes back only from the first COMPLETE reply with all earlier replies pending. It is downloaded from the instance URL plus the filename into the site folder. |
| Monolith.WaitForConfluenceFileStopsAt | backup.py:267-321 | Conversely, the first reply that is not pending decides: an exception propagates, a failed backup gives nothing, and a COMPLETE reply ends as its download does. |
| Monolith.DownloadNamedFile | backup.py:284-314 | A reply without a truthy filename gives nothing. A filename that is not text raises TypeError. A text filename gives the file exactly when the download succeeded, and a download failure propagates. |
| Monolith.HandleConfluenceAsWritten | backup.py:469-481 | Any available Confluence status raises NameError, because `now` is undefined there. |
| Monolith.HandleConfluence | backup.py:469-526 | The corrected step reuses a reusable backup, fetching its file with the backup's own time. Otherwise it triggers a backup: a trigger failure or an exception while waiting propagates, a failed backup proposes nothing, and a completed one is fetched stamped now. So a finished step triggers exactly when the backup is not reusable. Entries are the two Confluence keys with a file in the site folder. |
| Monolith.FetchConfluenceFile | backup.py:508-525 | The step finishes exactly when the wait did, and an exception while waiting propagates. Entries are proposed exactly when a file was fetched: the two Confluence keys with the given stamp and that file. Fetching triggers nothing. |
| Monolith.ConfluenceStepsAgreeWhenUnavailable | backup.py:469-476 | The as-written and corrected steps agree whenever no status is available. |
| Monolith.Orchestrate | backup.py:366-386 | A load error, a logging error, a Jira exception and a Confluence exception are each raised in that order; when every step finishes, the run ends with the file the merged save writes, or the save's error. |
| Monolith.NameErrorLosesJiraEntries | backup.py:376-386 | Whenever Confluence answers, the run raises NameError, so a finished Jira download is never recorded. |
| Monolith.OrchestrateCorrected | backup.py:366-386 | The same error order and the same save result, with the corrected Confluence step. |
| Monolith.OrchestrateAgreesWhenUnavailable | backup.py:366-386 | When Confluence gives no status, the script as written runs exactly as the corrected one, so it saves what the corrected run saves. |
| Monolith.CorrectedRecordsJira | backup.py:376-386 | The corrected run records the Jira archive it downloaded. |
| Monolith.DownloadOnce | backup.py:189-220 | The script's single-attempt download writes the body from scratch. It logs only past thresholds, and an error reply raises without touching the file. |
| Driver.KeptNames | main.py:40 | The kept names are stripped and non-blank, and there are no more of them than pieces. |
| Driver.InstanceNames | main.py:35-41 | Every instance name is stripped, non-blank and free of commas. |
| Driver.InstanceNamesRoundTrip | main.py:40 | Joining clean names with ',' and reading them back gives the same names. |
| Driver.InstanceUrl | main.py:41 | A name becomes `https://<name>.atlassian.net`. |
| Driver.Urls | main.py:38-41 | There is one URL per name, and dropping the scheme leaves `<name>.atlassian.net`. |
| Driver.InstanceFolder | main.py:41 | A site with a clean name keeps its files in the folder `<name>.atlassian.net`. |
| Driver.InstancesKeepSeparateStatus | main.py:41 | Different clean names never share a status file. |
| Driver.Startup | main.py:35-55 | Start-up succeeds exactly when some instance is named, the poll interval parses and both credentials are non-empty. No instance exits with status 1 before anything else is checked. |
| Driver.PollInterval | main.py:49 | An unset interval is 30. A set one is read by `int()`: it parses exactly when its stripped text is a signed digit group, and otherwise raises ValueError. |
| Driver.DraftStartup | backup.py:23 | In the script the poll interval is parsed at import, before anything else. |
| Driver.FirstEscape | backup.py:564-572 | The first attempt whose error the loop does not catch, with every earlier attempt caught or successful. |
| Driver.Finished | backup.py:564-572 | The loop finishes every instance exactly when no attempt escapes it. |
| Driver.TallyPartition | main.py:59-75 | Every attempt counts once: as a success, or as a failure at its own position. |
| Driver.RunInstances | main.py:59-75 | The loop counts the successes of the attempts it reached. It logs each caught failure and stops at the first error it does not catch. |
| Driver.Attempt | main.py:62-70 | One attempt fails with the constructor's error when construction fails, and otherwise ends as its run does. |
| Driver.AllCaughtFailures | main.py:60-73 | When every attempt raises a caught error, nothing succeeds and every site fails. |
| Driver.PackageRunSucceedsNowhere | main.py:63-73 | With the controller as written, every site fails and none is backed up. |
| Driver.CorrectedAttemptIsOrchestrate | main.py:63-69 | With the corrected constructor calls, an attempt is exactly its run. |
| Driver.MissingSubmittedIsCaught | backup.py:436-438 | A missing `submitted` exits the script uncaught, while the package raises a ValueError the loop catches. |
| Driver.ExitSkipsLaterInstances | backup.py:564-572 | An exit in the first site skips the second. With the package's ValueError the second still runs. |

## Left out

- HTTP, files, clocks, sleeps and logging are not performed. Replies, file contents, the time and the date are inputs. Sleeps are returned as values. Log lines are modelled only as the byte counts the progress logger reports.
- Authentication is not modelled: the basic-auth headers and the Jira library object used by `fetch_task_info`. Its fallback to a direct request is folded into one `taskInfo` reply.
- JSON decoding is abstracted. Floats, arrays and malformed bodies are not modelled, and a body is already a `Dict`.
- `datetime` is reduced to integer milliseconds. `fromtimestamp` of `submitted / 1000`, time zones, `astimezone` and `strftime` for display are not modelled. ISO text is the `format`/`parse` parameter pair.
- Case mapping is ASCII only: `upper` and `lower` leave every non-ASCII character alone. `strip()` uses Python's full whitespace set. `int()` does not accept non-ASCII decimal digits.
- Layout.DateText prints the year without zero padding. Years below 1000 differ from `%Y`.
- SrcLayout.Abs does not normalise "." and ".." components.
- Transfer-speed arithmetic in the progress and completion log lines is not modelled (floating point).
- Polling ends in `Polling` when the recorded replies run out. The tool itself polls forever.
- Confluence's trigger reply body and the `cbAttachments` payload are not modelled. The trigger is its exception or nothing.
- The `status` argument of the Confluence client's `process_backup` is not modelled because the client never reads it.
- The `STATUS_FILE`, `CB_ATTACHMENTS` and `POLL_INTERVAL_SECONDS` variables are parameters. `STATUS_FILE` is `baseStatusFile`, and the poll interval only matters through its parse.
- The `%d` with None in the "Using server task ID" log call is not modelled. Logging swallows that formatting error, so the flow is unchanged.
- KeyboardInterrupt and other BaseExceptions are not modelled. SystemExit is the only error that escapes the loop's `except Exception`.
- Monolith.HandleJira: its archive download is an abstract outcome, the exception or nothing. That the script's download is a single raw attempt is stated by Monolith.DownloadOnce, not by this step.
- Monolith.HandleJiraAgrees: the script and the package read one shared download outcome. The script makes a single attempt that raises the raw HTTP or network error (backup.py:189-220). The package retries and wraps the last failure (atlassian_cloud_backup/utils/http_utils.py:85-124). The equality therefore holds only when both downloads end alike. Download.DownloadFile and Monolith.DownloadOnce model the two downloads separately.
- The src/ tree's `load_status` and `save_status` are the package's StatusStore and are not modelled twice.
- Layout.PrepareBackupPath: the contract states only that the path ends with the archive name. The folder it lies in is stated by Layout.BackupPathInFolder, for a service and extension without '/'.

## Findings

| source | as written | input that shows it | evidently intended | confidence | as-written member | corrected member |
|---|---|---|---|---|---|---|
| atlassian_cloud_backup/utils/file_utils.py:46-62 | `load_status` keeps timestamp text that `fromisoformat` rejects. `save_status` then calls `.isoformat()` on that string. | a status file holding `"last_confluence_backup": ""` (falsy, so the logging step passes it), then a run in which only Jira proposes entries; a truthy text such as `"yesterday"` instead stops the run earlier, in the logging step at backup_controller.py:85-87 | an unparsable timestamp is dropped at load, so that the next save succeeds | not executed | StatusStore.UnparsableTimestampBlocksSave | StatusStore.LoadStatusDropping |
| atlassian_cloud_backup/backup_controller.py:35-37 | `JiraClient(url, username, api_token, poll_interval, self.backup_target_directory)` passes five positional arguments to a four-parameter constructor. The package's `FileManager` gets a `backup_target_directory` keyword it does not have. | any site | the target directory goes only to a file manager that accepts it | not executed | Controller.AsWrittenConstructionFails | Controller.CorrectedConstructionSucceeds |
| backup.py:478-481 | `_handle_confluence_backup` uses `now`, which is not defined in its scope. | a Confluence that answers its status request with 200 | `now` passed in from `orchestrate`, as for Jira | not executed | Monolith.NameErrorLosesJiraEntries | Monolith.CorrectedRecordsJira |
| backup.py:436-438 | A missing `submitted` calls `sys.exit(1)`. The loop at 571 catches only `Exception`, so the remaining sites are skipped. | two sites, the first reporting a task without `submitted` | raise an Exception, as the package does, so that the next site still runs | not executed | Driver.ExitSkipsLaterInstances | Driver.MissingSubmittedIsCaught |

Three behaviours a reader might expect differently, where the model follows the code:

- A failed `lastTaskId` request yields None, and so starts a new export.
- An unparsable timestamp is kept at load time.
- A Jira step that raises aborts the package's run before Confluence is asked.
