/**
 * The batch import engine of the user import plugin: the table of import jobs, the two AJAX
 * handlers that drive it (one request is one transition), the batch processor and the upsert
 * decision for one record.
 */
module Importer {
  import opened Options
  import opened Rows
  import opened Accounts

  /** Records read per batch request. */
  const BATCH_SIZE: nat := 500

  /** The `post_type` every new job row is given. */
  const POST_TYPE: string := "rao"

  const PERMISSION_DENIED: string := "Permission denied"
  const NO_FILE: string := "No file uploaded"
  const INVALID_TYPE: string := "Invalid file type. Only XML and CSV files are supported."
  const UPLOAD_ERROR: string := "Upload error: "
  const NOT_FOUND: string := "Import not found"
  const INVALID_ID: string := "Invalid import ID"

  // ---------------------------------------------------------------------------------------------
  // File names

  /**
   * pathinfo(name, PATHINFO_EXTENSION): what follows the last '.', or "" when there is none.
   * (File names reach the import already sanitised, without directory separators.)
   */
  function Extension(name: string): (ext: string)
    ensures '.' !in ext
    ensures '.' !in name ==> ext == ""
    ensures '.' in name ==> |ext| < |name| && name[|name| - |ext| - 1] == '.' && name[|name| - |ext|..] == ext
    decreases |name|
  {
    if name == [] then ""
    else if name[|name| - 1] == '.' then ""
    else if '.' !in name[..|name| - 1] then ""
    else
      var init := name[..|name| - 1];
      assert name[..|name| - 1 - |Extension(init)|] == init[..|init| - |Extension(init)|];
      Extension(init) + [name[|name| - 1]]
  }

  /** The file types the bootstrap accepts; every other type is refused before anything is stored. */
  predicate SupportedType(ext: string) {
    ext == "xml" || ext == "csv"
  }

  /** A name ending in ".ext", for ext without a dot, has extension ext. */
  lemma ExtensionOfDottedName(stem: string, ext: string)
    requires '.' !in ext
    ensures Extension(stem + "." + ext) == ext
  {
    var name := stem + "." + ext;
    assert name[|stem|] == '.';
    var e := Extension(name);
    assert |e| == |ext|;
    assert e == name[|name| - |ext|..] == ext;
  }

  // ---------------------------------------------------------------------------------------------
  // Import jobs

  datatype Status = New | Processing | Completed

  /** One row of the `wp_user_imports` table, without its id (the table's key) and its timestamp. */
  datatype ImportJob = ImportJob(
    fileName: string, fileId: int, filePath: string, postType: string,
    totalRows: int, processed: int, skipped: int, status: Status)

  /** What holds of every row the handlers write: a completed job has processed all its rows. */
  ghost predicate JobValid(job: ImportJob) {
    && job.status != New
    && job.processed >= 0
    && (job.status == Completed ==> job.processed >= job.totalRows)
  }

  /** The row after a batch of n records: only `processed` and `status` are written. */
  function AfterBatch(job: ImportJob, n: nat): (updated: ImportJob)
    ensures updated.processed == job.processed + n >= job.processed
    ensures updated.status == (if updated.processed >= job.totalRows then Completed else Processing)
    ensures updated.(processed := job.processed, status := job.status) == job
  {
    var processed := job.processed + n;
    job.(processed := processed, status := if processed >= job.totalRows then Completed else Processing)
  }

  /** A batch keeps the row invariant. */
  lemma AfterBatchKeepsJobValid(job: ImportJob, n: nat)
    requires JobValid(job)
    ensures JobValid(AfterBatch(job, n))
  {
  }

  // ---------------------------------------------------------------------------------------------
  // Percentages

  function Abs(x: int): nat { if x < 0 then -x else x }

  /** (2a + b) div 2b rounds a / b to the nearest integer, halves upwards. */
  lemma HalfUpQuotient(a: nat, b: nat, q: int)
    requires b > 0 && q == (2 * a + b) / (2 * b)
    ensures q >= 0 && 2 * (q * b) <= 2 * a + b < 2 * (q * b) + 2 * b
  {
    var r := (2 * a + b) % (2 * b);
    assert 2 * a + b == (2 * b) * q + r && 0 <= r < 2 * b;
    assert (2 * b) * q == 2 * (q * b);
  }

  lemma SignedProduct(pct: int, total: int, q: nat, b: nat, negative: bool)
    requires b == Abs(total)
    requires pct == if negative != (total < 0) then -(q as int) else q as int
    ensures pct * total == if negative then -(q * b) else q * b
  {
    if total < 0 {
      assert pct * total == -(pct * b);
    }
  }

  lemma MulMonotone(x: int, y: int, t: nat)
    requires x <= y
    ensures x * t <= y * t
  {
    assert y * t - x * t == (y - x) * t;
  }

  /**
   * round(processed / total * 100): PHP rounds halves away from zero.  The result is an integer
   * nearest to 100·processed/total and, on a tie, the one farther from zero.
   */
  function Percentage(processed: int, total: int): (pct: int)
    requires total != 0
    ensures Abs(200 * processed - 2 * (pct * total)) <= Abs(total)
    ensures Abs(200 * processed - 2 * (pct * total)) == Abs(total) ==> Abs(pct * total) > Abs(100 * processed)
  {
    var a, b := Abs(100 * processed), Abs(total);
    var q := (2 * a + b) / (2 * b);
    HalfUpQuotient(a, b, q);
    var pct := if (processed < 0) != (total < 0) then -q else q;
    SignedProduct(pct, total, q, b, processed < 0);
    pct
  }

  /** For a job part-way through, the percentage lies between 0 and 100, and is 100 once all rows are done. */
  lemma PercentageOfProgress(processed: int, total: int)
    requires 0 <= processed <= total && total > 0
    ensures 0 <= Percentage(processed, total) <= 100
    ensures processed == total ==> Percentage(processed, total) == 100
    ensures processed == 0 ==> Percentage(processed, total) == 0
  {
    var pct := Percentage(processed, total);
    var x := pct * total;
    assert 200 * processed - total <= 2 * x <= 200 * processed + total;
    if pct < 0 {
      MulMonotone(pct, -1, total);
    }
    if pct > 100 {
      MulMonotone(101, pct, total);
    }
    if processed == total && pct < 100 {
      MulMonotone(pct, 99, total);
    }
    if processed == 0 && pct > 0 {
      MulMonotone(1, pct, total);
    }
  }

  // ---------------------------------------------------------------------------------------------
  // Requests and responses

  /** What `wp_handle_upload` did with the uploaded file, and the attachment id it was registered under. */
  datatype HandledUpload =
    | Moved(path: string, content: FileView, attachmentId: int)
    | UploadFailed(error: string)

  /** The `import_file` upload: its sanitised name and what became of it. */
  datatype Upload = Upload(fileName: string, handled: HandledUpload)

  /**
   * A `process_import_batch` request: whether the nonce and the caller's capability check pass,
   * `import_id` and `offset` (0 when absent), and the upload, if any.
   */
  datatype BatchRequest = BatchRequest(nonceValid: bool, canManage: bool, importId: int, offset: int, upload: Option<Upload>)

  /** A `get_import_progress` request. */
  datatype ProgressRequest = ProgressRequest(nonceValid: bool, canManage: bool, importId: int)

  /** The PHP errors that end a request with no JSON answer. */
  datatype FatalError =
    | DivisionByZero  // `/` by a total of 0
    | XmlNotLoaded    // xpath() called on the `false` that simplexml_load_file returned

  datatype Response =
    | Died                      // check_ajax_referer failed and ended the request
    | JsonError(message: string)
    | ImportStarted(importId: int, totalRows: int, fileName: string)
    | BatchProcessed(processed: int, totalRows: int, percentage: int, status: Status)
    | ProgressReport(processed: int, totalRows: int, percentage: int, status: Status, fileName: string)
    | Fatal(error: FatalError)

  /** The answer to a progress query about a job. */
  function Progress(job: ImportJob): Response {
    if job.totalRows == 0 then Fatal(DivisionByZero)
    else ProgressReport(job.processed, job.totalRows, Percentage(job.processed, job.totalRows), job.status, job.fileName)
  }

  // ---------------------------------------------------------------------------------------------
  // The upsert decision for one record

  /** What became of one record. */
  datatype Outcome =
    | Created(id: nat)
    | CreateFailed
    | Updated(id: nat)
    | EmailOnlyMatch  // the e-mail is taken but the login is not: the update runs with no user id

  datatype Upserted = Upserted(store: Store, outcome: Outcome)

  /**
   * create_or_update_user: create when neither the login nor the e-mail exists, setting names
   * and role if the create succeeded; otherwise update names and role of the account found by
   * login, which is `false` (id 0) when only the e-mail matched.
   */
  function Upsert(s: Store, r: Record): Upserted {
    if r.username in s.accounts then
      var id := s.accounts[r.username].id;
      Upserted(s.(accounts := WithProfile(s.accounts, id, r.firstName, r.lastName, r.role)), Updated(id))
    else if HasEmail(s.accounts, r.email) then
      Upserted(s.(accounts := WithProfile(s.accounts, 0, r.firstName, r.lastName, r.role)), EmailOnlyMatch)
    else if CreateFails(s, r.username, r.email) then
      Upserted(s, CreateFailed)
    else
      var created := AfterCreate(s, r.username, r.email);
      Upserted(created.(accounts := WithProfile(created.accounts, s.nextId, r.firstName, r.lastName, r.role)),
               Created(s.nextId))
  }

  /** An existing login creates nothing: that account's names and role are overwritten, no other account changes. */
  lemma UpsertExistingLogin(s: Store, r: Record)
    requires StoreValid(s)
    requires r.username in s.accounts
    ensures var a := s.accounts[r.username];
            Upsert(s, r) == Upserted(
              s.(accounts := s.accounts[r.username := a.(firstName := r.firstName, lastName := r.lastName, role := r.role)]),
              Updated(a.id))
  {
    WithProfileOfLogin(s, r.username, r.firstName, r.lastName, r.role);
  }

  /**
   * Neither login nor e-mail known: exactly one account is created with that login and e-mail
   * and gets the record's names and role, or, when the store refuses the login, nothing changes.
   */
  lemma UpsertNewLogin(s: Store, r: Record)
    requires StoreValid(s)
    requires r.username !in s.accounts && !HasEmail(s.accounts, r.email)
    ensures r.username in s.refused ==> Upsert(s, r) == Upserted(s, CreateFailed)
    ensures r.username !in s.refused ==>
              Upsert(s, r) == Upserted(
                s.(accounts := s.accounts[r.username := Account(s.nextId, r.email, r.firstName, r.lastName, r.role)],
                   nextId := s.nextId + 1),
                Created(s.nextId))
  {
    if r.username !in s.refused {
      var created := AfterCreate(s, r.username, r.email);
      AfterCreateKeepsValid(s, r.username, r.email);
      WithProfileOfLogin(created, r.username, r.firstName, r.lastName, r.role);
    }
  }

  /** Only the e-mail known: the update branch runs without an id and changes no account. */
  lemma UpsertEmailOnlyMatch(s: Store, r: Record)
    requires StoreValid(s)
    requires r.username !in s.accounts && HasEmail(s.accounts, r.email)
    ensures Upsert(s, r) == Upserted(s, EmailOnlyMatch)
  {
    WithProfileOfUnknownId(s, 0, r.firstName, r.lastName, r.role);
  }

  /**
   * An empty e-mail is never taken: two records with new logins and no e-mail both create an
   * account, the second under the id after the first's.
   */
  lemma UpsertEmptyEmails(s: Store, r1: Record, r2: Record)
    requires StoreValid(s)
    requires r1.email == "" && r2.email == "" && r1.username != r2.username
    requires r1.username !in s.accounts && r2.username !in s.accounts
    requires r1.username !in s.refused && r2.username !in s.refused
    ensures Upsert(s, r1).outcome == Created(s.nextId)
    ensures Upsert(Upsert(s, r1).store, r2).outcome == Created(s.nextId + 1)
  {
    UpsertNewLogin(s, r1);
  }

  /** The upsert keeps ids distinct and never removes a login. */
  lemma UpsertKeepsValid(s: Store, r: Record)
    requires StoreValid(s)
    ensures StoreValid(Upsert(s, r).store)
    ensures s.accounts.Keys <= Upsert(s, r).store.accounts.Keys
    ensures Upsert(s, r).store.refused == s.refused
  {
    if r.username !in s.accounts && !HasEmail(s.accounts, r.email) && !CreateFails(s, r.username, r.email) {
      AfterCreateKeepsValid(s, r.username, r.email);
    }
  }

  /** The store after upserting records one after the other, in order. */
  function UpsertAll(s: Store, recs: seq<Record>): Store
    decreases |recs|
  {
    if recs == [] then s
    else Upsert(UpsertAll(s, recs[..|recs| - 1]), recs[|recs| - 1]).store
  }

  lemma {:induction false} UpsertAllKeepsValid(s: Store, recs: seq<Record>)
    requires StoreValid(s)
    ensures StoreValid(UpsertAll(s, recs))
    ensures s.accounts.Keys <= UpsertAll(s, recs).accounts.Keys
    ensures UpsertAll(s, recs).refused == s.refused
    decreases |recs|
  {
    if recs != [] {
      UpsertAllKeepsValid(s, recs[..|recs| - 1]);
      UpsertKeepsValid(UpsertAll(s, recs[..|recs| - 1]), recs[|recs| - 1]);
    }
  }

  /** Upserting two runs of records one after the other is upserting their concatenation. */
  lemma {:induction false} UpsertAllAppend(s: Store, a: seq<Record>, b: seq<Record>)
    ensures UpsertAll(s, a + b) == UpsertAll(UpsertAll(s, a), b)
    decreases |b|
  {
    if b == [] {
      assert a + b == a;
    } else {
      var b' := b[..|b| - 1];
      assert (a + b)[..|a + b| - 1] == a + b';
      assert (a + b)[|a + b| - 1] == b[|b| - 1];
      UpsertAllAppend(s, a, b');
    }
  }

  lemma UpsertAllOne(s: Store, recs: seq<Record>, r: Record)
    ensures UpsertAll(s, recs + [r]) == Upsert(UpsertAll(s, recs), r).store
  {
    assert (recs + [r])[..|recs|] == recs;
  }

  // ---------------------------------------------------------------------------------------------
  // The plugin

  class UserImportPlugin {
    /** The `wp_user_imports` table by id. */
    var jobs: map<int, ImportJob>
    /** The id AUTO_INCREMENT gives the next row. */
    var nextJobId: int
    /** The uploaded files, by path. */
    var disk: map<string, FileView>
    const users: UserStore

    ghost predicate Valid()
      reads this, users
    {
      && users.Valid()
      && nextJobId >= 1
      && (forall id | id in jobs :: 1 <= id < nextJobId && JobValid(jobs[id]) && jobs[id].filePath in disk)
    }

    constructor (users: UserStore)
      requires users.Valid()
      ensures Valid()
      ensures jobs == map[] && nextJobId == 1 && disk == map[] && this.users == users
    {
      this.jobs := map[];
      this.nextJobId := 1;
      this.disk := map[];
      this.users := users;
    }

    /** create_or_update_user for one parsed record. */
    method CreateOrUpdateUser(r: Record) returns (outcome: Outcome)
      requires users.Valid()
      modifies users
      ensures users.Valid()
      ensures Upserted(users.State(), outcome) == Upsert(old(users.State()), r)
    {
      var userId := users.UsernameExists(r.username);
      var create := false;
      if userId == 0 {
        var emailTaken := users.EmailExists(r.email);
        create := !emailTaken;
      }
      if create {
        var created := users.CreateUser(r.username, r.email);
        if created.Some? {
          users.UpdateUser(created.value, r.firstName, r.lastName, r.role);
          outcome := Created(created.value);
        } else {
          outcome := CreateFailed;
        }
      } else {
        users.UpdateUser(userId, r.firstName, r.lastName, r.role);
        outcome := if userId == 0 then EmailOnlyMatch else Updated(userId);
      }
    }

    /**
     * process_batch: reopen the file, skip to `offset`, upsert up to `batchSize` records in file
     * order, and return how many were iterated (None: the XML did not load, a fatal error).
     */
    method ProcessBatch(filePath: string, fileType: string, offset: int, batchSize: nat) returns (processed: Option<nat>)
      requires users.Valid()
      requires filePath in disk
      modifies users
      ensures users.Valid()
      ensures match BatchRecords(disk[filePath], fileType, offset, batchSize)
              case None => processed == None && users.State() == old(users.State())
              case Some(batch) => processed == Some(|batch|) && users.State() == UpsertAll(old(users.State()), batch)
    {
      var file := disk[filePath];
      ghost var before := users.State();
      if fileType == "xml" {
        if file.xmlUsers.None? {
          return None;
        }
        var batchUsers := ArraySlice(file.xmlUsers.value, offset, batchSize);
        var count := 0;
        for k := 0 to |batchUsers|
          invariant users.Valid()
          invariant count == k
          invariant users.State() == UpsertAll(before, batchUsers[..k])
        {
          var outcome := CreateOrUpdateUser(batchUsers[k]);
          UpsertAllOne(before, batchUsers[..k], batchUsers[k]);
          assert batchUsers[..k + 1] == batchUsers[..k] + [batchUsers[k]];
          count := count + 1;
        }
        assert batchUsers[..|batchUsers|] == batchUsers;
        processed := Some(count);
      } else {
        var lines := file.csvLines;
        var start := SkipRows(lines, offset);
        var handle, count := UpsertRows(lines, start, batchSize);
        processed := Some(count);
      }
    }

    /**
     * The skip loop of the CSV branch: `fgetcsv` is called `offset + 1` times (never for a
     * negative offset); a call at end of file leaves the handle where it is.
     */
    static method SkipRows(lines: seq<Record>, offset: int) returns (handle: nat)
      ensures handle == CsvStart(|lines|, offset)
    {
      handle := 0;
      var i := 0;
      while i <= offset
        invariant offset < 0 ==> i == 0
        invariant offset >= 0 ==> 0 <= i <= offset + 1
        invariant handle == Min(i, |lines|)
        decreases offset + 1 - i
      {
        if handle < |lines| {
          handle := handle + 1;
        }
        i := i + 1;
      }
    }

    /**
     * The batch loop of the CSV branch: from row `start`, read and upsert rows until `batchSize`
     * of them are done or `fgetcsv` returns false at end of file.
     */
    method UpsertRows(lines: seq<Record>, start: nat, batchSize: nat) returns (handle: nat, count: nat)
      requires users.Valid()
      requires start <= |lines|
      modifies users
      ensures users.Valid()
      ensures handle == Min(start + batchSize, |lines|) && count == handle - start
      ensures users.State() == UpsertAll(old(users.State()), lines[start..handle])
    {
      ghost var before := users.State();
      handle, count := start, 0;
      var i := 0;
      while i < batchSize
        invariant 0 <= i <= batchSize && count == i
        invariant start <= handle <= |lines| && handle == start + count
        invariant users.Valid()
        invariant users.State() == UpsertAll(before, lines[start..handle])
      {
        if handle >= |lines| {
          break;  // fgetcsv returned false
        }
        var data := lines[handle];
        handle := handle + 1;
        var outcome := CreateOrUpdateUser(data);
        UpsertAllOne(before, lines[start..handle - 1], data);
        assert lines[start..handle] == lines[start..handle - 1] + [data];
        count := count + 1;
        i := i + 1;
      }
    }

    /** The bootstrap branch of process_import_batch: no import id was sent. */
    method StartImport(upload: Option<Upload>) returns (resp: Response)
      requires Valid()
      modifies this
      ensures Valid()
      ensures upload.None? ==> resp == JsonError(NO_FILE) && unchanged(this)
      ensures upload.Some? && !SupportedType(Extension(upload.value.fileName)) ==>
                resp == JsonError(INVALID_TYPE) && unchanged(this)
      ensures upload.Some? && SupportedType(Extension(upload.value.fileName)) && upload.value.handled.UploadFailed? ==>
                resp == JsonError(UPLOAD_ERROR + upload.value.handled.error) && unchanged(this)
      ensures upload.Some? && SupportedType(Extension(upload.value.fileName)) && upload.value.handled.Moved? ==>
                var u, m := upload.value, upload.value.handled;
                && disk == old(disk)[m.path := m.content]
                && match TotalRows(m.content, Extension(u.fileName))
                   case None => resp == Fatal(XmlNotLoaded) && jobs == old(jobs) && nextJobId == old(nextJobId)
                   case Some(total) =>
                     && old(nextJobId) !in old(jobs)
                     && jobs == old(jobs)[old(nextJobId) := ImportJob(u.fileName, m.attachmentId, m.path, POST_TYPE, total, 0, 0, Processing)]
                     && nextJobId == old(nextJobId) + 1
                     && resp == ImportStarted(old(nextJobId), total, u.fileName)
    {
      if upload.None? {
        return JsonError(NO_FILE);
      }
      var file := upload.value;
      var fileType := Extension(file.fileName);
      if !SupportedType(fileType) {
        return JsonError(INVALID_TYPE);
      }
      match file.handled
      case UploadFailed(error) =>
        return JsonError(UPLOAD_ERROR + error);
      case Moved(path, content, attachmentId) =>
        disk := disk[path := content];
        var total := CountTotalRows(disk[path], fileType);
        if total.None? {
          return Fatal(XmlNotLoaded);
        }
        var id := nextJobId;
        jobs := jobs[id := ImportJob(file.fileName, attachmentId, path, POST_TYPE, total.value, 0, 0, Processing)];
        nextJobId := nextJobId + 1;
        return ImportStarted(id, total.value, file.fileName);
    }

    /** The batch branch of process_import_batch: an import id was sent. */
    method ContinueImport(importId: int, offset: int) returns (resp: Response)
      requires Valid()
      modifies this, users
      ensures Valid()
      ensures disk == old(disk) && nextJobId == old(nextJobId)
      ensures importId !in old(jobs) ==> resp == JsonError(NOT_FOUND) && unchanged(this, users)
      ensures importId in old(jobs) ==>
                var job := old(jobs)[importId];
                match BatchRecords(old(disk)[job.filePath], Extension(job.fileName), offset, BATCH_SIZE)
                case None => resp == Fatal(XmlNotLoaded) && jobs == old(jobs) && users.State() == old(users.State())
                case Some(batch) =>
                  var updated := AfterBatch(job, |batch|);
                  && users.State() == UpsertAll(old(users.State()), batch)
                  && jobs == old(jobs)[importId := updated]
                  && resp == if job.totalRows == 0 then Fatal(DivisionByZero)
                             else BatchProcessed(updated.processed, job.totalRows,
                                                 Percentage(updated.processed, job.totalRows), updated.status)
    {
      if importId !in jobs {
        return JsonError(NOT_FOUND);
      }
      var job := jobs[importId];
      var fileType := Extension(job.fileName);
      var n := ProcessBatch(job.filePath, fileType, offset, BATCH_SIZE);
      if n.None? {
        return Fatal(XmlNotLoaded);
      }
      var newProcessed := job.processed + n.value;
      var status := if newProcessed >= job.totalRows then Completed else Processing;
      jobs := jobs[importId := job.(processed := newProcessed, status := status)];
      if job.totalRows == 0 {
        return Fatal(DivisionByZero);
      }
      return BatchProcessed(newProcessed, job.totalRows, Percentage(newProcessed, job.totalRows), status);
    }

    /**
     * process_import_batch.  Without an import id: bootstrap a job for the uploaded file.  With
     * one: run one batch from `offset` and write back the job's `processed` and `status`.
     * Every error answer, and every fatal error before a write, leaves all state as it was.
     */
    method ProcessImportBatch(req: BatchRequest) returns (resp: Response)
      requires Valid()
      modifies this, users
      ensures Valid()
      ensures !req.nonceValid ==> resp == Died && unchanged(this, users)
      ensures req.nonceValid && !req.canManage ==> resp == JsonError(PERMISSION_DENIED) && unchanged(this, users)
      // bootstrap
      ensures req.nonceValid && req.canManage && req.importId == 0 ==> unchanged(users)
      ensures req.nonceValid && req.canManage && req.importId == 0 && req.upload.None? ==>
                resp == JsonError(NO_FILE) && unchanged(this)
      ensures req.nonceValid && req.canManage && req.importId == 0 && req.upload.Some? &&
              !SupportedType(Extension(req.upload.value.fileName)) ==>
                resp == JsonError(INVALID_TYPE) && unchanged(this)
      ensures req.nonceValid && req.canManage && req.importId == 0 && req.upload.Some? &&
              SupportedType(Extension(req.upload.value.fileName)) && req.upload.value.handled.UploadFailed? ==>
                resp == JsonError(UPLOAD_ERROR + req.upload.value.handled.error) && unchanged(this)
      ensures req.nonceValid && req.canManage && req.importId == 0 && req.upload.Some? &&
              SupportedType(Extension(req.upload.value.fileName)) && req.upload.value.handled.Moved? ==>
                var u, m := req.upload.value, req.upload.value.handled;
                && disk == old(disk)[m.path := m.content]
                && match TotalRows(m.content, Extension(u.fileName))
                   case None => resp == Fatal(XmlNotLoaded) && jobs == old(jobs) && nextJobId == old(nextJobId)
                   case Some(total) =>
                     && old(nextJobId) !in old(jobs)
                     && jobs == old(jobs)[old(nextJobId) := ImportJob(u.fileName, m.attachmentId, m.path, POST_TYPE, total, 0, 0, Processing)]
                     && nextJobId == old(nextJobId) + 1
                     && resp == ImportStarted(old(nextJobId), total, u.fileName)
      // one batch
      ensures req.nonceValid && req.canManage && req.importId != 0 && req.importId !in old(jobs) ==>
                resp == JsonError(NOT_FOUND) && unchanged(this, users)
      ensures req.nonceValid && req.canManage && req.importId != 0 && req.importId in old(jobs) ==>
                var job := old(jobs)[req.importId];
                && disk == old(disk) && nextJobId == old(nextJobId)
                && match BatchRecords(old(disk)[job.filePath], Extension(job.fileName), req.offset, BATCH_SIZE)
                   case None => resp == Fatal(XmlNotLoaded) && jobs == old(jobs) && users.State() == old(users.State())
                   case Some(batch) =>
                     var updated := AfterBatch(job, |batch|);
                     && users.State() == UpsertAll(old(users.State()), batch)
                     && jobs == old(jobs)[req.importId := updated]
                     && resp == if job.totalRows == 0 then Fatal(DivisionByZero)
                                else BatchProcessed(updated.processed, job.totalRows,
                                                    Percentage(updated.processed, job.totalRows), updated.status)
    {
      if !req.nonceValid {
        return Died;
      }
      if !req.canManage {
        return JsonError(PERMISSION_DENIED);
      }
      if req.importId == 0 {
        resp := StartImport(req.upload);
      } else {
        resp := ContinueImport(req.importId, req.offset);
      }
    }

    /** get_import_progress: a read-only query about one job. */
    method GetImportProgress(req: ProgressRequest) returns (resp: Response)
      ensures !req.nonceValid ==> resp == Died
      ensures req.nonceValid && !req.canManage ==> resp == JsonError(PERMISSION_DENIED)
      ensures req.nonceValid && req.canManage && req.importId == 0 ==> resp == JsonError(INVALID_ID)
      ensures req.nonceValid && req.canManage && req.importId != 0 && req.importId !in jobs ==> resp == JsonError(NOT_FOUND)
      ensures req.nonceValid && req.canManage && req.importId != 0 && req.importId in jobs ==> resp == Progress(jobs[req.importId])
    {
      if !req.nonceValid {
        return Died;
      }
      if !req.canManage {
        return JsonError(PERMISSION_DENIED);
      }
      if req.importId == 0 {
        return JsonError(INVALID_ID);
      }
      if req.importId !in jobs {
        return JsonError(NOT_FOUND);
      }
      return Progress(jobs[req.importId]);
    }
  }

  /**
   * A stray batch call on a completed job, at the offset the job reached, reads no record and
   * leaves the job as it was.
   */
  lemma CompletedJobIsSticky(job: ImportJob, f: FileView)
    requires JobValid(job) && job.status == Completed
    requires TotalRows(f, Extension(job.fileName)) == Some(job.totalRows)
    ensures BatchRecords(f, Extension(job.fileName), job.processed, BATCH_SIZE) == Some([])
    ensures AfterBatch(job, 0) == job
  {
    BatchSizeBound(f, Extension(job.fileName), job.processed, BATCH_SIZE);
  }

  /** However many records a later call counts, a completed job stays completed. */
  lemma CompletedStaysCompleted(job: ImportJob, n: nat)
    requires JobValid(job) && job.status == Completed
    ensures AfterBatch(job, n).status == Completed
    ensures AfterBatch(job, n).processed >= job.totalRows
  {
  }

  /**
   * A stray call on a completed job at offset 0 reads the first records again: they are upserted
   * a second time and `processed` is pushed past `total_rows`.
   */
  lemma RestartedOffsetOvercounts(job: ImportJob, f: FileView)
    requires JobValid(job) && job.status == Completed && job.totalRows > 0
    requires TotalRows(f, Extension(job.fileName)) == Some(job.totalRows)
    ensures var batch := BatchRecords(f, Extension(job.fileName), 0, BATCH_SIZE);
            && batch.Some? && |batch.value| == Min(BATCH_SIZE, job.totalRows) > 0
            && AfterBatch(job, |batch.value|).processed > job.totalRows
  {
    BatchSizeBound(f, Extension(job.fileName), 0, BATCH_SIZE);
  }

  /**
   * The client's stop rule on records is the job's: when the job has counted `offset` of the
   * file's N records and N is its `total_rows`, the batch the client reads next completes the job
   * exactly when it reaches the end of the records.
   */
  lemma ClientStopRuleIsCompletion(job: ImportJob, recs: seq<Record>, offset: nat)
    requires job.processed == offset <= |recs| && job.totalRows == |recs|
    ensures var batch := recs[Min(offset, |recs|)..Min(offset + BATCH_SIZE, |recs|)];
            AfterBatch(job, |batch|).status == Completed <==> offset + |batch| >= |recs|
  {
  }

  /**
   * A job of 1200 rows driven from offset 0: the three answers carry processed 500, 1000 and
   * 1200, percentages 42, 83 and 100, and statuses processing, processing and completed.
   */
  lemma TwelveHundredRowJobAnswers(job: ImportJob, f: FileView)
    requires job.processed == 0 && job.totalRows == 1200
    requires TotalRows(f, Extension(job.fileName)) == Some(1200)
    ensures var b1 := BatchRecords(f, Extension(job.fileName), 0, BATCH_SIZE);
            var j1 := AfterBatch(job, |b1.value|);
            var b2 := BatchRecords(f, Extension(job.fileName), j1.processed, BATCH_SIZE);
            var j2 := AfterBatch(j1, |b2.value|);
            var b3 := BatchRecords(f, Extension(job.fileName), j2.processed, BATCH_SIZE);
            var j3 := AfterBatch(j2, |b3.value|);
            && b1.Some? && b2.Some? && b3.Some?
            && j1.processed == 500 && j1.status == Processing && Percentage(500, 1200) == 42
            && j2.processed == 1000 && j2.status == Processing && Percentage(1000, 1200) == 83
            && j3.processed == 1200 && j3.status == Completed && Percentage(1200, 1200) == 100
  {
    var ext := Extension(job.fileName);
    BatchSizeBound(f, ext, 0, BATCH_SIZE);
    BatchSizeBound(f, ext, 500, BATCH_SIZE);
    BatchSizeBound(f, ext, 1000, BATCH_SIZE);
    PercentageOfProgress(1200, 1200);
  }
}
