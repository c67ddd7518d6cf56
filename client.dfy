/**
 * The browser side of an import, reduced to the rule that drives the engine: start the job,
 * then ask for one batch at a time, sending as the next offset the cumulative `processed` the
 * previous answer returned, until an answer says `completed` or is not a batch answer at all.
 */
module ImportClient {
  import opened Options
  import opened Rows
  import opened Accounts
  import opened Importer

  /** The records of the uploaded file, for an upload the bootstrap accepted. */
  ghost function UploadRecords(upload: Upload): seq<Record>
    requires upload.handled.Moved?
    requires DataRecords(upload.handled.content, Extension(upload.fileName)).Some?
  {
    DataRecords(upload.handled.content, Extension(upload.fileName)).value
  }

  /**
   * What a client driving job `id` knows before it asks for the batch at `offset`: the job
   * still describes the uploaded file, has counted exactly `offset` records, and the store holds
   * the upserts of the first `offset` data records over the store it started from.
   */
  ghost predicate Driving(p: UserImportPlugin, id: int, upload: Upload, offset: int, before: Store)
    reads p, p.users
  {
    && p.Valid()
    && id in p.jobs && id != 0
    && upload.handled.Moved?
    && var content, fileType := upload.handled.content, Extension(upload.fileName);
       && DataRecords(content, fileType).Some?
       && TotalRows(content, fileType).Some?
       && var recs := DataRecords(content, fileType).value;
          && p.jobs[id].fileName == upload.fileName && p.jobs[id].filePath == upload.handled.path
          && p.jobs[id].totalRows == TotalRows(content, fileType).value
          && upload.handled.path in p.disk && p.disk[upload.handled.path] == content
          && 0 <= offset <= |recs| && p.jobs[id].processed == offset
          && p.users.State() == UpsertAll(before, recs[..offset])
  }

  /**
   * processBatch(importId, offset): ask for one batch and, unless the answer says `completed`
   * or is not a batch answer, ask again with the returned cumulative `processed` as offset.
   */
  method ProcessBatches(p: UserImportPlugin, id: int, offset: int, ghost upload: Upload, ghost before: Store)
    returns (last: Response)
    requires Driving(p, id, upload, offset, before)
    modifies p, p.users
    ensures p.Valid()
    ensures var recs := UploadRecords(upload);
            && p.users.State() == UpsertAll(before, recs)
            && id in p.jobs && p.jobs[id].processed == |recs| && p.jobs[id].status == Completed
    // each batch writes only the `processed` and `status` of job `id`
    ensures p.jobs.Keys == old(p.jobs).Keys
    ensures forall j | j in old(p.jobs) && j != id :: p.jobs[j] == old(p.jobs)[j]
    ensures p.jobs[id] == old(p.jobs)[id].(processed := |UploadRecords(upload)|, status := Completed)
    ensures p.disk == old(p.disk) && p.nextJobId == old(p.nextJobId)
    decreases |UploadRecords(upload)| - offset
  {
    ghost var content, fileType := upload.handled.content, Extension(upload.fileName);
    ghost var recs := UploadRecords(upload);
    TotalRowsCountsDataRecords(content, fileType);
    BatchFollowsFileOrder(content, fileType, offset, BATCH_SIZE);
    ghost var batch := recs[offset..Min(offset + BATCH_SIZE, |recs|)];
    ghost var reached := offset + |batch|;
    UpsertAllAppend(before, recs[..offset], batch);
    assert recs[..offset] + batch == recs[..reached];
    last := p.ProcessImportBatch(BatchRequest(true, true, id, offset, None));
    assert p.jobs[id].processed == reached;
    assert p.users.State() == UpsertAll(before, recs[..reached]);
    if !last.BatchProcessed? || last.status == Completed {
      assert reached == |recs| && recs[..reached] == recs;
    } else {
      last := ProcessBatches(p, id, last.processed, upload, before);
    }
  }

  /**
   * The submit handler: start the job, then drive it from offset 0.  Once the job has started,
   * every data record of the file is upserted exactly once, in file order, and the job ends
   * completed with every record counted.
   */
  method RunImport(p: UserImportPlugin, upload: Upload) returns (start: Response, last: Response)
    requires p.Valid()
    modifies p, p.users
    ensures p.Valid()
    ensures start.ImportStarted? <==>
              && upload.handled.Moved? && SupportedType(Extension(upload.fileName))
              && TotalRows(upload.handled.content, Extension(upload.fileName)).Some?
    ensures !start.ImportStarted? ==> last == start
    // a start that fails answers with its error; only a file that was moved is written to disk
    ensures !SupportedType(Extension(upload.fileName)) ==>
              start == JsonError(INVALID_TYPE) && unchanged(p, p.users)
    ensures SupportedType(Extension(upload.fileName)) && upload.handled.UploadFailed? ==>
              start == JsonError(UPLOAD_ERROR + upload.handled.error) && unchanged(p, p.users)
    ensures SupportedType(Extension(upload.fileName)) && upload.handled.Moved? &&
            TotalRows(upload.handled.content, Extension(upload.fileName)).None? ==>
              && start == Fatal(XmlNotLoaded)
              && p.disk == old(p.disk)[upload.handled.path := upload.handled.content]
              && p.jobs == old(p.jobs) && p.nextJobId == old(p.nextJobId)
              && p.users.State() == old(p.users.State())
    // a start that succeeds adds one job, under the next id, and drives it to completion
    ensures start.ImportStarted? ==>
              && upload.handled.Moved?
              && DataRecords(upload.handled.content, Extension(upload.fileName)).Some?
              && var recs, m := UploadRecords(upload), upload.handled;
                 && start.importId == old(p.nextJobId) && old(p.nextJobId) !in old(p.jobs)
                 && start.totalRows == TotalRows(m.content, Extension(upload.fileName)).value
                 && p.users.State() == UpsertAll(old(p.users.State()), recs)
                 && p.jobs.Keys == old(p.jobs).Keys + {start.importId}
                 && (forall j | j in old(p.jobs) :: p.jobs[j] == old(p.jobs)[j])
                 && p.jobs[start.importId] == ImportJob(upload.fileName, m.attachmentId, m.path, POST_TYPE,
                                                        start.totalRows, |recs|, 0, Completed)
                 && p.disk == old(p.disk)[m.path := m.content]
                 && p.nextJobId == old(p.nextJobId) + 1
  {
    start := p.ProcessImportBatch(BatchRequest(true, true, 0, 0, Some(upload)));
    last := start;
    if !start.ImportStarted? {
      return;
    }
    TotalRowsCountsDataRecords(upload.handled.content, Extension(upload.fileName));
    assert UploadRecords(upload)[..0] == [];
    last := ProcessBatches(p, start.importId, 0, upload, old(p.users.State()));
  }

  /** Two progress queries with nothing in between give the same answer (the query is read-only). */
  method PollTwice(p: UserImportPlugin, req: ProgressRequest) returns (first: Response, second: Response)
    ensures first == second
  {
    first := p.GetImportProgress(req);
    second := p.GetImportProgress(req);
  }
}
