# User import plugin: the batch import engine, in Dafny

This project models the batch import engine of a WordPress plugin that imports user accounts
from CSV or XML files. The model covers:

- the table of import jobs (`wp_user_imports`);
- the two AJAX handlers that drive the table, one request per transition: `process_import_batch`
  bootstraps a job or runs one batch, and `get_import_progress` only reads;
- the two resumable row readers, which reopen the file on every call;
- the create-or-update decision for one record;
- the browser's rule for driving a job: resend the returned cumulative `processed` as the next
  offset until the answer says `completed`.

Modules, one per component:

- `Options` (`options.dfy`): the optional value used for PHP's "value or false" returns.
- `Rows` (`rows.dfy`): records and files as the two parsers see them, the row counter, the batch
  readers as functions of (file, offset, batch size), and the client's batch sequence.
- `Accounts` (`accounts.dfy`): the WordPress user store (accounts by login, id allocation, lookups by
  login and e-mail, `wp_create_user`, `wp_update_user`) as a class over a `Store` value.
- `Importer` (`importer.dfy`): the upsert decision `Upsert` and its fold `UpsertAll`, the job rows,
  the percentage, and the plugin class `UserImportPlugin`. The class holds the job table, the
  upload directory and the user store, and its methods are the PHP methods.
- `ImportClient` (`client.dfy`): the JavaScript driver (`processBatch`) as a recursive method.

How the source is abstracted:

- A file is a `FileView`. It holds the rows `fgetcsv` returns one after another (row 0 is the
  header) and the `user` nodes the XPath query `//user` selects. The second is `None` when
  `simplexml_load_file` fails; calling `xpath()` on its `false` is then a fatal error, which the
  model answers with `Fatal(XmlNotLoaded)`.
- Every handler's `wp_send_json_*` call becomes a `return` of a `Response`. A failed nonce check
  (`check_ajax_referer` dies) is `Died`.
- The upload is an input: either `Moved(path, content, attachmentId)` or `UploadFailed(error)`.
  The bootstrap writes the moved file into the plugin's `disk`, and later batches read it back
  from there.
- `create_or_update_user` is the spec function `Importer.Upsert`. A batch is the left fold
  `Importer.UpsertAll` over the batch's records, in file order.
- `username_exists` returns 0 for PHP's `false`. In the e-mail-only case the update runs with
  that 0 as its id, and `Accounts.WithProfileOfUnknownId` proves that no account changes. The
  model returns this case as its own outcome, `EmailOnlyMatch`.

Behaviours a reader may not expect, all modelled as the code has them:

- A job whose `total_rows` is 0 makes the percentage divide by zero. The code has no guard, and
  PHP 8 throws `DivisionByZeroError`, so the model answers `Fatal(DivisionByZero)`. This happens
  after the batch's update has been written, and also for a progress query on such a job.
- An empty CSV file (no header row either) counts −1 rows, not 0.
- A new job starts in status `processing`, never `new`.
- `skipped` is never incremented and stays 0.
- A batch call on a completed job is not refused. At the offset the job reached it reads nothing
  and changes nothing (`Importer.CompletedJobIsSticky`). At a lower offset it upserts those
  records again and pushes `processed` past `total_rows` (`Importer.RestartedOffsetOvercounts`).
  Either way the job stays completed (`Importer.CompletedStaysCompleted`).
- Offsets come from `intval` and may be negative. A negative offset makes the CSV skip loop run
  zero times, so the header row is processed as a record (`Rows.NegativeOffsetRereadsHeader`).
  For XML, `array_slice` counts a negative offset from the end.

## Model

| member | source | states |
|---|---|---|
| `Rows.CountTotalRows` | user-import-plugin.php:371-384 | the XML count is the number of `user` nodes (none if the document does not load); the CSV loop counts every row and returns that number minus one for the header |
| `Rows.TotalRowsCountsDataRecords` | user-import-plugin.php:371-384 | the row count equals the number of data records, except that a CSV file with no rows at all counts −1, and that is the only way to get −1 |
| `Rows.BatchSizeBound` | user-import-plugin.php:387-423 | from a non-negative offset a batch holds exactly min(batchSize, max(0, N − offset)) records, N being the row count: at most the batch size, fewer only at end of file |
| `Rows.BatchFollowsFileOrder` | user-import-plugin.php:394-417 | from a non-negative offset a batch is the run of data records starting at record `offset`, in file order: the CSV reader skips the header plus `offset` rows, and the XML reader slices the node list |
| `Rows.NegativeOffsetRereadsHeader` | user-import-plugin.php:403-406 | with a negative offset the skip loop does not run, so the CSV batch starts with the header row |
| `Rows.ClientBatchesCoverRecords` | assets/js/user-import.js:67-104 | batches driven by the returned cumulative count visit every remaining record exactly once, in order (their sizes sum to the records left); each batch is at most the batch size, and every batch but the last is full |
| `Rows.TwelveHundredRecordsTakeThreeBatches` | assets/js/user-import.js:84-93 | 1200 records in batches of 500 give three batches, of 500, 500 and 200 records |
| `Importer.ClientStopRuleIsCompletion` | user-import-plugin.php:317-318 | when the job has counted `offset` of its N records and N is its `total_rows`, the next batch marks it completed exactly when the batch reaches the last record, which is the stop rule of the record-level batch sequence |
| `Importer.TwelveHundredRowJobAnswers` | user-import-plugin.php:314-335 | a 1200-row job driven from offset 0 answers processed 500, 1000, 1200 with percentages 42, 83, 100 and statuses processing, processing, completed |
| `Accounts.UserStore.UsernameExists` | user-import-plugin.php:446 | returns the login's account id, or 0 (PHP's `false`) exactly when the login is unknown |
| `Accounts.UserStore.EmailExists` | user-import-plugin.php:448 | an empty address is never found; any other is found exactly when some account has it |
| `Accounts.UserStore.CreateUser` | user-import-plugin.php:450-452 | `wp_create_user` either fails and leaves the store as it was, or adds one account under the login with the next id and the e-mail |
| `Accounts.UserStore.UpdateUser` | user-import-plugin.php:454-468 | `wp_update_user` sets first name, last name and role of the account with the given id and changes nothing else |
| `Accounts.WithProfileOfUnknownId` | user-import-plugin.php:461-468 | an update with an id no account has (0, from `false`) changes no account |
| `Accounts.WithProfileOfLogin` | user-import-plugin.php:446-468 | updating by the id found for a login changes that account's names and role and no other account |
| `Accounts.AfterCreateKeepsValid` | user-import-plugin.php:450 | creating an account keeps every id positive and distinct |
| `Importer.Extension` | user-import-plugin.php:251 | `pathinfo(..., PATHINFO_EXTENSION)`: the result has no dot; it is what follows the last dot, or "" when the name has no dot |
| `Importer.ExtensionOfDottedName` | user-import-plugin.php:251-255 | a name ending in ".ext" (no dot in ext) has extension ext, so "x.csv" and "x.xml" pass the type check |
| `Importer.AfterBatch` | user-import-plugin.php:317-327 | after a batch of n records, `processed` = old `processed` + n (never less), `status` is completed when `processed` ≥ `total_rows` and processing otherwise, and no other field changes |
| `Importer.AfterBatchKeepsJobValid` | user-import-plugin.php:317-318 | a batch keeps the job invariant: a completed job has processed at least all its rows |
| `Importer.Percentage` | user-import-plugin.php:332 | `round(processed / total * 100)`: the integer nearest to 100·processed/total, with a tie going away from zero |
| `Importer.PercentageOfProgress` | user-import-plugin.php:364 | for 0 ≤ processed ≤ total the percentage is between 0 and 100; it is 100 when all rows are done and 0 when none are |
| `Importer.UpsertExistingLogin` | user-import-plugin.php:446-469 | a known login creates nothing: that account's first name, last name and role are overwritten, and every other account stays as it was |
| `Importer.UpsertNewLogin` | user-import-plugin.php:448-460 | with neither login nor e-mail known, exactly one account is created with that login, e-mail, names and role under the next id; if the create fails, nothing changes |
| `Importer.UpsertEmailOnlyMatch` | user-import-plugin.php:461-468 | an unknown login whose e-mail is taken takes the update branch with no id: outcome `EmailOnlyMatch`, store unchanged |
| `Importer.UpsertEmptyEmails` | user-import-plugin.php:446-452 | two records with new logins and empty e-mails both create an account, under consecutive ids, because an empty address is never taken |
| `Importer.UpsertKeepsValid` | user-import-plugin.php:445-469 | an upsert keeps ids distinct and positive and never removes a login |
| `Importer.UpsertAllKeepsValid` | user-import-plugin.php:396-417 | upserting a batch record by record keeps the store valid and never removes a login |
| `Importer.UpsertAllAppend` | user-import-plugin.php:314-317 | upserting two runs of records one after the other equals upserting their concatenation, so successive batches compose |
| `Importer.CompletedStaysCompleted` | user-import-plugin.php:317-318 | whatever a later call on a completed job counts, the job stays completed with at least all its rows counted |
| `Importer.RestartedOffsetOvercounts` | user-import-plugin.php:313-318 | a call at offset 0 on a completed, non-empty job reads min(500, total) records again and pushes `processed` past `total_rows` |
| `Importer.CompletedJobIsSticky` | user-import-plugin.php:313-327 | a stray batch call on a completed job, at the offset the job reached, reads no record and leaves the job unchanged |
| `Importer.UserImportPlugin.constructor` | user-import-plugin.php:14-39 | the plugin starts with an empty job table, ids from 1, and a valid user store |
| `Importer.UserImportPlugin.CreateOrUpdateUser` | user-import-plugin.php:426-473 | the user store and the outcome are those of the decision `Upsert` for the record |
| `Importer.UserImportPlugin.ProcessBatch` | user-import-plugin.php:387-423 | returns the number of records iterated, and the store becomes the upsert of exactly the batch's records in order; if the XML does not load, nothing changes |
| `Importer.UserImportPlugin.SkipRows` | user-import-plugin.php:403-406 | after calling `fgetcsv` `offset + 1` times (never for a negative offset) the handle stands at row min(max(offset + 1, 0), rows) |
| `Importer.UserImportPlugin.UpsertRows` | user-import-plugin.php:408-417 | reads and upserts rows from the handle until `batchSize` are done or end of file; reports how many, and the store is their upsert in order |
| `Importer.UserImportPlugin.StartImport` | user-import-plugin.php:243-304 | no file, a type other than xml/csv, or an upload error each gives its message and changes nothing; otherwise exactly one job is inserted under the next id, with `total_rows` = the count, `processed` = 0 and status processing, and that id is returned |
| `Importer.UserImportPlugin.ContinueImport` | user-import-plugin.php:305-336 | an unknown id gives 'Import not found' and changes nothing; otherwise one batch runs from the offset, and only that job's `processed` and `status` are written; disk, other jobs and the id counter are unchanged |
| `Importer.UserImportPlugin.ProcessImportBatch` | user-import-plugin.php:231-337 | nonce and capability failures come first and change nothing; otherwise the bootstrap (which never touches the user store) or the batch transition runs, as stated for each, and the table invariant is kept |
| `Importer.UserImportPlugin.GetImportProgress` | user-import-plugin.php:340-368 | read-only: 'Permission denied', 'Invalid import ID' for id 0, 'Import not found' for an unknown id, otherwise the job's counters, percentage, status and file name |
| `ImportClient.ProcessBatches` | assets/js/user-import.js:67-104 | resending the returned `processed` as the next offset, the client ends with every remaining data record upserted exactly once in file order, and the job completed with `processed` equal to the number of records; no other job, no other field of the job, the disk and the id counter change |
| `ImportClient.RunImport` | assets/js/user-import.js:28-65 | the start succeeds exactly for a moved upload of a supported type whose rows can be counted; a failed start gives its error and writes nothing but a moved file; a successful one adds exactly one job under the next id, and after the chain from offset 0 that job is completed with every record counted, the store is the in-order upsert of all the file's data records, and no other job changes |
| `ImportClient.PollTwice` | assets/js/user-import.js:143-157 | two progress queries with nothing in between return the same answer |

Functions without a contract of their own are specifications that the members above are proved
against:

- `Rows.CsvBatch`, `Rows.ArraySlice`, `Rows.BatchRecords`, `Rows.TotalRows` and
  `Rows.DataRecords` are the readers.
- `Rows.ClientBatches` is the client's batch sequence, stated on records alone: it stops once
  the cumulative count reaches the number of records. `Importer.ClientStopRuleIsCompletion`
  shows this is the point where the job turns completed. `ImportClient.ProcessBatches` proves
  coverage on the plugin itself without going through this sequence.
- `Importer.Upsert` and `Importer.UpsertAll` are the upsert and the batch fold.
- `Importer.Progress` is the progress answer.

## Left out

- Admin pages, menu and assets (`render_admin_page`, `render_import_tab`, `render_history_tab`,
  `add_admin_menu`, `enqueue_scripts`): presentation only.
- `activate_plugin`: table creation through `dbDelta`, with no logic. The model starts from an
  empty table.
- `delete_all_except_specific_user`: its hook is commented out, so it never runs.
- Nonce and capability checks: reduced to two booleans in each request.
- `wp_handle_upload` and `wp_insert_attachment`: foreign I/O. Their result is an input, and the
  media-library entry is not modelled. `sanitize_file_name` is not modelled: names arrive already
  sanitised.
- CSV quoting and XML parsing: records arrive already parsed into five fields. A blank CSV line
  counts as a row, as it does for `fgetcsv`. Rows with fewer than five columns and missing XML
  child elements are not modelled.
- Files that vanish or cannot be opened after the upload are not modelled: the plugin's
  invariant keeps every job's file on its disk.
- `wp_generate_password` and the password itself, and the `usleep(10000)` throttle.
- Accounts.UserStore.UsernameExists: logins are compared exactly. The database's
  case-insensitive collation and WordPress's trimming are not modelled, so "Alice" does not
  find an existing "alice".
- Accounts.UserStore.EmailExists: addresses are compared exactly, with no trimming or case
  folding. Only the empty address is special: it is never found.
- Importer.UserImportPlugin.StartImport: the stored path is an input. `wp_handle_upload`'s
  choice of a unique file name is not modelled, so an upload to a path an older job uses
  replaces that job's file on the plugin's disk.
- The internals of `wp_create_user` and `wp_update_user`. Creation fails only for a login the
  store refuses, or for a login or e-mail already taken. An update by a known id always succeeds.
- The `import_date` timestamp and the constant `message` strings ("Import started",
  "Batch processed") of the success answers.
- Percentage: rounds the exact quotient 100·processed/total. PHP computes it in floating point,
  which can differ on a value within rounding error of a half.
- Integer widths: MySQL `int(11)` and `mediumint` columns and PHP integers are unbounded here.
- Concurrent batch calls for the same job, which race on `processed`. The model runs one request
  at a time.
- From the JavaScript, only the offset-progression rule and a repeated progress query are
  modelled. DOM updates, alerts, `setTimeout` polling and retries, and `formatFileSize`
  (floating point) are left out.
