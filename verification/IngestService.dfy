/** The API side of ingest: the repository that writes job rows with no
    ownership check, and the status sequences of the two ingest calls. */
module IngestService {
  import opened Sequences
  import opened IngestJobs
  import opened JobQueue

  const COLUMN_DEFAULT_MAX_ATTEMPTS: nat := 3

  datatype IngestError = JobNotFound(tenantId: string, sourceId: string) | Raised(failure: Failure)

  /** The unique key: at most one row for a tenant and a source. */
  ghost predicate UniqueSources(rows: Rows) {
    forall a, b :: a in rows && b in rows && rows[a].tenantId == rows[b].tenantId && rows[a].sourceId == rows[b].sourceId
                   ==> a == b
  }

  ghost predicate IsJob(rows: Rows, j: JobId, tenant: string, source: string) {
    j in rows && rows[j].tenantId == tenant && rows[j].sourceId == source
  }

  /** The row of a tenant and source, which the unique key makes unique. */
  function FindJob(rows: Rows, tenant: string, source: string): (r: Option<JobId>)
    requires UniqueSources(rows)
    ensures r.None? ==> forall j :: j in rows ==> !IsJob(rows, j, tenant, source)
    ensures r.Some? ==> IsJob(rows, r.value, tenant, source)
  {
    var ids := set j | j in rows && rows[j].tenantId == tenant && rows[j].sourceId == source;
    if ids == {} then
      assert forall j :: j in rows ==> IsJob(rows, j, tenant, source) ==> j in ids;
      None
    else
      assert exists j :: j in ids;
      var j :| j in ids;
      Some(j)
  }

  lemma FindJobIs(rows: Rows, j: JobId, tenant: string, source: string)
    requires UniqueSources(rows) && IsJob(rows, j, tenant, source)
    ensures FindJob(rows, tenant, source) == Some(j)
  {
  }

  /** Writing a row under the key it has, or a new row under a free key, keeps the key unique. */
  lemma WriteKeepsUnique(rows: Rows, j: JobId, job: Job)
    requires UniqueSources(rows)
    requires FindJob(rows, job.tenantId, job.sourceId) == if j in rows then Some(j) else None
    ensures UniqueSources(rows[j := job])
    ensures FindJob(rows[j := job], job.tenantId, job.sourceId) == Some(j)
  {
    var rows' := rows[j := job];
    forall a, b | a in rows' && b in rows' && rows'[a].tenantId == rows'[b].tenantId && rows'[a].sourceId == rows'[b].sourceId
      ensures a == b
    {
      if a != b && (a == j || b == j) {
        var other := if a == j then b else a;
        assert IsJob(rows, other, job.tenantId, job.sourceId);
      }
    }
    FindJobIs(rows', j, job.tenantId, job.sourceId);
  }

  class IngestJobRepository {
    const table: JobTable
    const defaultMaxAttempts: nat

    constructor (table: JobTable, defaultMaxAttempts: nat)
      requires defaultMaxAttempts >= 1
      ensures this.table == table && this.defaultMaxAttempts == defaultMaxAttempts
    {
      this.table := table;
      this.defaultMaxAttempts := defaultMaxAttempts;
    }

    /** Creates or overwrites the row of a source. `newId` is the id of a created
        row, `now` its creation time. */
    method UpsertJob(tenant: string, source: string, bucket: string, key: string,
                     status: Status, error: Option<string>, newId: JobId, now: Time) returns (id: JobId)
      requires UniqueSources(table.rows) && newId !in table.rows
      modifies table
      ensures UniqueSources(table.rows) && FindJob(table.rows, tenant, source) == Some(id)
      ensures FindJob(old(table.rows), tenant, source) == if id == newId then None else Some(id)
      ensures table.rows.Keys == old(table.rows).Keys + {id}
      ensures forall j :: j in old(table.rows) && j != id ==> table.rows[j] == old(table.rows)[j]
      ensures var row := table.rows[id];
              && row.tenantId == tenant && row.sourceId == source && row.rawBucket == bucket && row.rawKey == key
              && row.status == status && row.error == error
              && row.createdAt == (if id == newId then now else old(table.rows)[id].createdAt)
              && if status == Pending || id == newId then
                   && row.attempts == 0 && row.lockedBy == None && row.nextAttemptAt == None
                   && row.claimedAt == None && row.heartbeatAt == None
                   && row.maxAttempts == (if status == Pending then defaultMaxAttempts else 3)
                 else
                   row == old(table.rows)[id].(rawBucket := bucket, rawKey := key, status := status, error := error)
      ensures status == Pending && error == None ==>
                table.rows[id] == if id == newId then NewPending(tenant, source, bucket, key, defaultMaxAttempts, now)
                                  else ResetPending(old(table.rows)[id], bucket, key, defaultMaxAttempts)
    {
      var found := FindJob(table.rows, tenant, source);
      var job: Job;
      if found.None? {
        id := newId;
        job := Job(tenant, source, bucket, key, status, error, 0, COLUMN_DEFAULT_MAX_ATTEMPTS,
                   now, None, None, None, None);
      } else {
        id := found.value;
        job := table.rows[id].(rawBucket := bucket, rawKey := key);
      }
      job := job.(status := status, error := error);
      if status == Pending {
        job := ResetPendingJob(job);
      }
      WriteKeepsUnique(table.rows, id, job);
      table.rows := table.rows[id := job];
    }

    function ResetPendingJob(job: Job): Job {
      job.(attempts := 0, maxAttempts := defaultMaxAttempts, claimedAt := None, heartbeatAt := None,
           lockedBy := None, nextAttemptAt := None)
    }

    method MarkProcessing(tenant: string, source: string, now: Time) returns (r: Result<JobId, IngestError>)
      requires UniqueSources(table.rows)
      modifies table
      ensures UniqueSources(table.rows) && FindJob(table.rows, tenant, source) == FindJob(old(table.rows), tenant, source)
      ensures match FindJob(old(table.rows), tenant, source)
              case None => r == Err(JobNotFound(tenant, source)) && table.rows == old(table.rows)
              case Some(j) => r == Ok(j) && table.rows == old(table.rows)[j := old(table.rows)[j].(
                                status := Processing, error := None, attempts := old(table.rows)[j].attempts + 1,
                                claimedAt := Some(now), heartbeatAt := Some(now), lockedBy := Some("api-sync"), nextAttemptAt := None)]
    {
      r := UpdateStatus(tenant, source, Processing, None, now);
    }

    method MarkSucceeded(tenant: string, source: string, now: Time) returns (r: Result<JobId, IngestError>)
      requires UniqueSources(table.rows)
      modifies table
      ensures UniqueSources(table.rows) && FindJob(table.rows, tenant, source) == FindJob(old(table.rows), tenant, source)
      ensures match FindJob(old(table.rows), tenant, source)
              case None => r == Err(JobNotFound(tenant, source)) && table.rows == old(table.rows)
              case Some(j) => r == Ok(j) && table.rows == old(table.rows)[j := old(table.rows)[j].(
                                status := Succeeded, error := None, lockedBy := None, nextAttemptAt := None)]
    {
      r := UpdateStatus(tenant, source, Succeeded, None, now);
    }

    method MarkFailed(tenant: string, source: string, error: string, now: Time) returns (r: Result<JobId, IngestError>)
      requires UniqueSources(table.rows)
      modifies table
      ensures UniqueSources(table.rows) && FindJob(table.rows, tenant, source) == FindJob(old(table.rows), tenant, source)
      ensures match FindJob(old(table.rows), tenant, source)
              case None => r == Err(JobNotFound(tenant, source)) && table.rows == old(table.rows)
              case Some(j) => r == Ok(j) && table.rows == old(table.rows)[j := old(table.rows)[j].(
                                status := Failed, error := Some(error), lockedBy := None, nextAttemptAt := None)]
    {
      r := UpdateStatus(tenant, source, Failed, Some(error), now);
    }

    method UpdateStatus(tenant: string, source: string, status: Status, error: Option<string>, now: Time)
      returns (r: Result<JobId, IngestError>)
      requires UniqueSources(table.rows)
      requires status != Pending && (status == Processing ==> error == None)
      modifies table
      ensures UniqueSources(table.rows) && FindJob(table.rows, tenant, source) == FindJob(old(table.rows), tenant, source)
      ensures match FindJob(old(table.rows), tenant, source)
              case None => r == Err(JobNotFound(tenant, source)) && table.rows == old(table.rows)
              case Some(j) => r == Ok(j) && table.rows == old(table.rows)[j :=
                                if status == Processing then
                                  old(table.rows)[j].(status := Processing, error := None, attempts := old(table.rows)[j].attempts + 1,
                                    claimedAt := Some(now), heartbeatAt := Some(now), lockedBy := Some("api-sync"), nextAttemptAt := None)
                                else
                                  old(table.rows)[j].(status := status, error := error, lockedBy := None, nextAttemptAt := None)]
      ensures r.Ok? ==>
                && r.value in old(table.rows) && r.value in table.rows
                && table.rows[r.value] == (if status == Processing then SyncClaimed(old(table.rows)[r.value], now)
                                           else Finished(old(table.rows)[r.value], status, error))
    {
      var found := FindJob(table.rows, tenant, source);
      if found.None? {
        return Err(JobNotFound(tenant, source));
      }
      var id := found.value;
      var job := table.rows[id].(status := status, error := error);
      if status == Processing {
        job := job.(attempts := job.attempts + 1, claimedAt := Some(now), heartbeatAt := Some(now),
                    lockedBy := Some(API_SYNC), nextAttemptAt := None);
      } else {
        job := job.(lockedBy := None, nextAttemptAt := None);
      }
      WriteKeepsUnique(table.rows, id, job);
      table.rows := table.rows[id := job];
      return Ok(id);
    }
  }

  /** What the caller of an ingest call gets: the job's id and the status reported. */
  datatype IngestResult = IngestResult(job: JobId, status: Status)

  /** The bucket and key that the raw upload reports. */
  datatype RawUpload = RawUpload(bucket: string, key: string)

  /** What the status writes of an ingest call raise: taking the row, marking it as succeeded,
      and, in a call that has raised, marking it as failed. */
  datatype IngestFaults = IngestFaults(taking: Option<Failure>, finishing: Option<Failure>, failing: bool)

  /** The exception that ends an ingest call, if any. */
  function RaisedIn(work: Result<(), Failure>, faults: IngestFaults): Option<Failure> {
    if faults.taking.Some? then faults.taking
    else if work.Err? then Some(work.error)
    else faults.finishing
  }

  /** The row waits for a worker under a key, with all its attempts left and no trace of an earlier one. */
  predicate Queued(row: Job, bucket: string, key: string, maxAttempts: nat) {
    && row.status == Pending && row.rawBucket == bucket && row.rawKey == key && row.error == None
    && row.attempts == 0 && row.maxAttempts == maxAttempts
    && row.claimedAt == None && row.heartbeatAt == None && row.lockedBy == None && row.nextAttemptAt == None
  }

  class DocumentIngestService {
    const jobs: IngestJobRepository

    constructor (jobs: IngestJobRepository)
      ensures this.jobs == jobs
    {
      this.jobs := jobs;
    }

    /** Queues a document: a pending row before the upload, and after it a second reset with the
        uploaded key. A failed upload fails the row and is re-raised; `failing` says that marking
        the row as failed raises as well, which is suppressed. An exception of the second write
        leaves what the first one wrote. */
    method CreatePendingJob(tenant: string, source: string, bucket: string, key: string, newId: JobId, newId': JobId,
                            now: Time, upload: Result<RawUpload, Failure>, second: Option<Failure>, failing: bool)
      returns (r: Result<IngestResult, IngestError>)
      requires UniqueSources(jobs.table.rows) && jobs.defaultMaxAttempts >= 1
      requires newId !in jobs.table.rows && newId' !in jobs.table.rows && newId != newId'
      requires upload.Err? ==> upload.error.className != ""
      modifies jobs.table
      ensures UniqueSources(jobs.table.rows)
      ensures forall j :: j in old(jobs.table.rows) && !IsJob(old(jobs.table.rows), j, tenant, source) ==>
                j in jobs.table.rows && jobs.table.rows[j] == old(jobs.table.rows)[j]
      ensures r.Err? <==> upload.Err? || second.Some?
      ensures var found := FindJob(jobs.table.rows, tenant, source);
              && found.Some?
              && var row := jobs.table.rows[found.value];
                 match upload
                 case Err(e) =>
                   && r == Err(Raised(e))
                   && if failing then Queued(row, bucket, key, jobs.defaultMaxAttempts)
                      else row.status == Failed && row.lockedBy == None && row.error == Some(ErrorMessage(e.message, e.className)) &&
                           row.error != Some("")
                 case Ok(u) =>
                   if second.Some? then r == Err(Raised(second.value)) && Queued(row, bucket, key, jobs.defaultMaxAttempts)
                   else r == Ok(IngestResult(found.value, Pending)) && Queued(row, u.bucket, u.key, jobs.defaultMaxAttempts)
    {
      var id := jobs.UpsertJob(tenant, source, bucket, key, Pending, None, newId, now);
      if upload.Err? {
        MarkIngestFailed(tenant, source, upload.error, failing, now);
        return Err(Raised(upload.error));
      }
      if second.Some? {
        return Err(Raised(second.value));
      }
      var id' := jobs.UpsertJob(tenant, source, upload.value.bucket, upload.value.key, Pending, None, newId', now);
      return Ok(IngestResult(id', Pending));
    }

    /** Marks the row of a source as failed; an exception of that write is suppressed. */
    method MarkIngestFailed(tenant: string, source: string, failure: Failure, failing: bool, now: Time)
      requires UniqueSources(jobs.table.rows)
      modifies jobs.table
      ensures UniqueSources(jobs.table.rows) && FindJob(jobs.table.rows, tenant, source) == FindJob(old(jobs.table.rows), tenant, source)
      ensures match FindJob(old(jobs.table.rows), tenant, source)
              case None => jobs.table.rows == old(jobs.table.rows)
              case Some(j) => jobs.table.rows == if failing then old(jobs.table.rows) else old(jobs.table.rows)[j :=
                                old(jobs.table.rows)[j].(status := Failed, lockedBy := None, nextAttemptAt := None,
                                  error := Some(ErrorMessage(failure.message, failure.className)))]
    {
      if !failing {
        var _ := jobs.MarkFailed(tenant, source, ErrorMessage(failure.message, failure.className), now);
      }
    }

    /** Ingests a document inside the request: pending, taken as `api-sync`, then succeeded, or
        failed with the error of whatever was raised, be it by the work or by a status write. When
        marking the row as failed raises as well, that is suppressed, and the row stays as it is:
        pending if it was not taken, and otherwise under the lock of `api-sync`. */
    method IngestDocument(tenant: string, source: string, bucket: string, key: string, newId: JobId, now: Time, done: Time,
                          work: Result<(), Failure>, faults: IngestFaults) returns (r: Result<IngestResult, IngestError>)
      requires UniqueSources(jobs.table.rows) && jobs.defaultMaxAttempts >= 1 && newId !in jobs.table.rows
      requires RaisedIn(work, faults).Some? ==> RaisedIn(work, faults).value.className != ""
      modifies jobs.table
      ensures UniqueSources(jobs.table.rows)
      ensures forall j :: j in old(jobs.table.rows) && !IsJob(old(jobs.table.rows), j, tenant, source) ==>
                j in jobs.table.rows && jobs.table.rows[j] == old(jobs.table.rows)[j]
      ensures r.Err? <==> faults.taking.Some? || work.Err? || faults.finishing.Some?
      ensures faults.taking.Some? ==> r == Err(Raised(faults.taking.value))
      ensures faults.taking.None? && work.Err? ==> r == Err(Raised(work.error))
      ensures var found, taken := FindJob(jobs.table.rows, tenant, source), faults.taking.None?;
              && found.Some?
              && var row := jobs.table.rows[found.value];
                 && row.attempts == (if taken then 1 else 0) && row.maxAttempts == jobs.defaultMaxAttempts
                 && row.claimedAt == row.heartbeatAt == (if taken then Some(now) else None) && row.nextAttemptAt == None
                 && row.rawBucket == bucket && row.rawKey == key
                 && match RaisedIn(work, faults)
                    case None =>
                      r == Ok(IngestResult(found.value, Succeeded)) && row.status == Succeeded && row.error == None && row.lockedBy == None
                    case Some(e) =>
                      && r == Err(Raised(e))
                      && if faults.failing then
                           && row.status == (if taken then Processing else Pending) && row.error == None
                           && row.lockedBy == (if taken then Some(API_SYNC) else None)
                         else
                           && row.status == Failed && row.lockedBy == None && row.error != Some("")
                           && row.error == Some(ErrorMessage(e.message, e.className))
    {
      var id := StartIngest(tenant, source, bucket, key, newId, now, faults.taking.None?);
      var raised := RaisedIn(work, faults);
      if raised.Some? {
        MarkIngestFailed(tenant, source, raised.value, faults.failing, done);
        return Err(Raised(raised.value));
      }
      var finished := jobs.MarkSucceeded(tenant, source, done);
      return Ok(IngestResult(id, Succeeded));
    }

    /** The first two writes of an ingest call: the row is pending, and then taken unless that raises. */
    method StartIngest(tenant: string, source: string, bucket: string, key: string, newId: JobId, now: Time, taken: bool)
      returns (id: JobId)
      requires UniqueSources(jobs.table.rows) && jobs.defaultMaxAttempts >= 1 && newId !in jobs.table.rows
      modifies jobs.table
      ensures UniqueSources(jobs.table.rows) && FindJob(jobs.table.rows, tenant, source) == Some(id)
      ensures forall j :: j in old(jobs.table.rows) && !IsJob(old(jobs.table.rows), j, tenant, source) ==>
                j != id && j in jobs.table.rows && jobs.table.rows[j] == old(jobs.table.rows)[j]
      ensures var row := jobs.table.rows[id];
              && row.attempts == (if taken then 1 else 0) && row.maxAttempts == jobs.defaultMaxAttempts
              && row.claimedAt == row.heartbeatAt == (if taken then Some(now) else None) && row.nextAttemptAt == None
              && row.rawBucket == bucket && row.rawKey == key
              && row.status == (if taken then Processing else Pending) && row.error == None
              && row.lockedBy == (if taken then Some(API_SYNC) else None)
    {
      id := jobs.UpsertJob(tenant, source, bucket, key, Pending, None, newId, now);
      if taken {
        var _ := jobs.MarkProcessing(tenant, source, now);
      }
    }
  }
}
