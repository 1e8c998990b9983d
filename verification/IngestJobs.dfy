/** Rows of the ingest-job table, the row updates that the worker and the API
    perform, and the claim of one worker call as a function on the table. */
module IngestJobs {
  import opened Sequences
  import opened Text

  datatype JobId = JobId(uuid: nat)
  type Time = real

  const API_SYNC := "api-sync"

  datatype Status = Pending | Processing | Succeeded | Failed

  datatype Job = Job(
    tenantId: string, sourceId: string, rawBucket: string, rawKey: string,
    status: Status, error: Option<string>,
    attempts: nat, maxAttempts: nat,
    createdAt: Time, claimedAt: Option<Time>, heartbeatAt: Option<Time>,
    lockedBy: Option<string>, nextAttemptAt: Option<Time>)

  type Rows = map<JobId, Job>

  /** What a worker keeps of the row it claimed. */
  datatype ClaimedJob = ClaimedJob(
    id: JobId, tenantId: string, sourceId: string, rawBucket: string, rawKey: string,
    attempts: nat, maxAttempts: nat, lockedBy: Option<string>)

  function FromModel(id: JobId, job: Job): ClaimedJob {
    ClaimedJob(id, job.tenantId, job.sourceId, job.rawBucket, job.rawKey, job.attempts, job.maxAttempts, job.lockedBy)
  }

  // ------------------------------------------------------------- row updates

  predicate Terminal(job: Job) { job.status.Succeeded? || job.status.Failed? }

  function AttemptLimit(job: Job): nat { if job.maxAttempts >= 1 then job.maxAttempts else 1 }

  predicate Exhausted(job: Job) { job.attempts >= AttemptLimit(job) }

  predicate Claimable(job: Job, now: Time, lease: Time) {
    match job.status
    case Pending => job.nextAttemptAt.None? || job.nextAttemptAt.value <= now
    case Processing => job.heartbeatAt.None? || job.heartbeatAt.value <= now - lease
    case _ => false
  }

  function Claimed(job: Job, now: Time, worker: string): Job {
    job.(status := Processing, error := None, attempts := job.attempts + 1,
         claimedAt := Some(now), heartbeatAt := Some(now), lockedBy := Some(worker), nextAttemptAt := None)
  }

  function ExhaustedFailure(job: Job): Job {
    job.(status := Failed,
         error := Some("Ingest job exceeded max attempts (" + Digits(AttemptLimit(job)) + ") after worker lease expired"),
         lockedBy := None, nextAttemptAt := None)
  }

  function Beaten(job: Job, now: Time): Job { job.(heartbeatAt := Some(now)) }

  function Finished(job: Job, status: Status, error: Option<string>): Job {
    job.(status := status, error := error, lockedBy := None, nextAttemptAt := None)
  }

  /** The API's upsert of an existing row with status pending. */
  function ResetPending(job: Job, bucket: string, key: string, maxAttempts: nat): Job {
    job.(rawBucket := bucket, rawKey := key, status := Pending, error := None, attempts := 0,
         maxAttempts := maxAttempts, claimedAt := None, heartbeatAt := None, lockedBy := None, nextAttemptAt := None)
  }

  function NewPending(tenant: string, source: string, bucket: string, key: string, maxAttempts: nat, now: Time): Job {
    Job(tenant, source, bucket, key, Pending, None, 0, maxAttempts, now, None, None, None, None)
  }

  /** The API's synchronous ingest takes the row. */
  function SyncClaimed(job: Job, now: Time): Job {
    job.(status := Processing, error := None, attempts := job.attempts + 1,
         claimedAt := Some(now), heartbeatAt := Some(now), lockedBy := Some(API_SYNC), nextAttemptAt := None)
  }

  /** `_error_message`: the stripped message, or the exception's class name. */
  function ErrorMessage(message: string, className: string): (r: string)
    ensures Strip(message) != "" ==> r == Strip(message)
    ensures Strip(message) == "" ==> r == className
    ensures className != "" ==> r != ""
  {
    if Strip(message) != "" then Strip(message) else className
  }

  // --------------------------------------------------------- the lease check

  datatype QueueError = Disappeared(id: JobId) | NotProcessing(id: JobId) | NotOwned(id: JobId)

  function LeaseCheck(rows: Rows, claim: ClaimedJob): Option<QueueError> {
    if claim.id !in rows then Some(Disappeared(claim.id))
    else if !rows[claim.id].status.Processing? then Some(NotProcessing(claim.id))
    else if rows[claim.id].lockedBy != claim.lockedBy then Some(NotOwned(claim.id))
    else None
  }

  predicate Passes(rows: Rows, claim: ClaimedJob) { LeaseCheck(rows, claim).None? }

  // --------------------------------------------------- selecting and claiming

  /** The order of selection: by creation time, then by id. */
  predicate Before(rows: Rows, a: JobId, b: JobId)
    requires a in rows && b in rows
  {
    rows[a].createdAt < rows[b].createdAt || (rows[a].createdAt == rows[b].createdAt && a.uuid < b.uuid)
  }

  /** The rows that the claim statement can select: claimable and not locked by
      another transaction. */
  function Candidates(rows: Rows, now: Time, lease: Time, locked: set<JobId>): set<JobId> {
    set j | j in rows && j !in locked && Claimable(rows[j], now, lease)
  }

  ghost predicate IsFirst(rows: Rows, j: JobId, ids: set<JobId>)
    requires ids <= rows.Keys
  {
    j in ids && forall k :: k in ids && k != j ==> Before(rows, j, k)
  }

  lemma {:induction false} FirstExists(rows: Rows, ids: set<JobId>)
    requires ids <= rows.Keys && ids != {}
    ensures exists j :: IsFirst(rows, j, ids)
    decreases ids
  {
    var k :| k in ids;
    if ids == {k} {
      assert IsFirst(rows, k, ids);
    } else {
      var rest := ids - {k};
      FirstExists(rows, rest);
      var j :| IsFirst(rows, j, rest);
      var first := if Before(rows, k, j) then k else j;
      forall m | m in ids && m != first ensures Before(rows, first, m) {
        assert m == k || m in rest;
      }
      assert IsFirst(rows, first, ids);
    }
  }

  lemma FirstIsUnique(rows: Rows, ids: set<JobId>, j: JobId, k: JobId)
    requires ids <= rows.Keys && IsFirst(rows, j, ids) && IsFirst(rows, k, ids)
    ensures j == k
  {
  }

  /** The claim statement: the first candidate, skipping the locked rows. */
  function SelectNext(rows: Rows, now: Time, lease: Time, locked: set<JobId>): (r: Option<JobId>)
    ensures r.None? <==> Candidates(rows, now, lease, locked) == {}
    ensures r.Some? ==> IsFirst(rows, r.value, Candidates(rows, now, lease, locked))
  {
    var ids := Candidates(rows, now, lease, locked);
    if ids == {} then None
    else
      FirstExists(rows, ids);
      var j :| j in ids && forall k :: k in ids && k != j ==> Before(rows, j, k);
      Some(j)
  }

  /** The rows that are neither succeeded nor failed: what bounds the claim loop. */
  ghost function Open(rows: Rows): set<JobId> {
    set j | j in rows && !Terminal(rows[j])
  }

  lemma ClosingShrinks(rows: Rows, j: JobId)
    requires j in rows && !Terminal(rows[j])
    ensures |Open(rows[j := ExhaustedFailure(rows[j])])| < |Open(rows)|
  {
    assert Open(rows[j := ExhaustedFailure(rows[j])]) == Open(rows) - {j};
  }

  /** One whole call of the claim loop at a fixed time: rows out of attempts are
      failed until a row can be claimed or no candidate is left. */
  function ClaimCall(rows: Rows, now: Time, lease: Time, locked: set<JobId>, worker: string): (Rows, Option<JobId>)
    decreases |Open(rows)|
  {
    match SelectNext(rows, now, lease, locked)
    case None => (rows, None)
    case Some(j) =>
      if Exhausted(rows[j]) then
        ClosingShrinks(rows, j);
        ClaimCall(rows[j := ExhaustedFailure(rows[j])], now, lease, locked, worker)
      else
        (rows[j := Claimed(rows[j], now, worker)], Some(j))
  }

  /** What one call does, in one pass over the table it found. */
  ghost predicate ClaimOutcome(rows: Rows, now: Time, lease: Time, locked: set<JobId>, worker: string,
                               rows': Rows, result: Option<JobId>)
  {
    var ids := Candidates(rows, now, lease, locked);
    && rows'.Keys == rows.Keys
    && match result
       case None =>
         && (forall j :: j in ids ==> Exhausted(rows[j]))
         && (forall j :: j in rows ==> rows'[j] == if j in ids then ExhaustedFailure(rows[j]) else rows[j])
       case Some(r) =>
         && IsFirst(rows, r, set j | j in ids && !Exhausted(rows[j]))
         && (forall j :: j in rows ==>
               rows'[j] == if j == r then Claimed(rows[j], now, worker)
                           else if j in ids && Before(rows, j, r) then ExhaustedFailure(rows[j])
                           else rows[j])
  }

  /** What one claim call may do when the clock moves while it loops: every read of
      the clock is at most `last`, the time of the deciding read. */
  ghost predicate MovingClaimOutcome(rows: Rows, last: Time, lease: Time, locked: set<JobId>, worker: string,
                                     rows': Rows, result: Option<JobId>)
  {
    var ids := Candidates(rows, last, lease, locked);
    && rows'.Keys == rows.Keys
    && (forall j :: j in rows && result != Some(j) && rows'[j] != rows[j] ==>
          j in ids && Exhausted(rows[j]) && rows'[j] == ExhaustedFailure(rows[j]))
    && match result
       case None => forall j :: j in ids ==> Exhausted(rows[j]) && rows'[j] == ExhaustedFailure(rows[j])
       case Some(r) =>
         && IsFirst(rows, r, set j | j in ids && !Exhausted(rows[j]))
         && rows'[r] == Claimed(rows[r], last, worker)
         && (forall j :: j in ids && Before(rows, j, r) ==> Exhausted(rows[j]) && rows'[j] == ExhaustedFailure(rows[j]))
  }

  /** The first candidate is exhausted: what the call does on the rest is what it does. */
  lemma OutcomeAfterFailure(rows: Rows, j: JobId, now: Time, lease: Time, locked: set<JobId>, worker: string,
                            rows': Rows, result: Option<JobId>)
    requires j in Candidates(rows, now, lease, locked) && IsFirst(rows, j, Candidates(rows, now, lease, locked))
    requires Exhausted(rows[j])
    requires ClaimOutcome(rows[j := ExhaustedFailure(rows[j])], now, lease, locked, worker, rows', result)
    ensures ClaimOutcome(rows, now, lease, locked, worker, rows', result)
  {
    var ids, failed := Candidates(rows, now, lease, locked), rows[j := ExhaustedFailure(rows[j])];
    assert Candidates(failed, now, lease, locked) == ids - {j};
    if result.Some? {
      assert (set k | k in ids - {j} && !Exhausted(failed[k])) == (set k | k in ids && !Exhausted(rows[k]));
      assert forall k :: k in rows ==> Before(failed, k, result.value) == Before(rows, k, result.value);
    }
  }

  /** The loop refines the one-pass outcome. */
  lemma {:induction false} ClaimCallMeetsOutcome(rows: Rows, now: Time, lease: Time, locked: set<JobId>, worker: string)
    ensures var (rows', result) := ClaimCall(rows, now, lease, locked, worker);
            ClaimOutcome(rows, now, lease, locked, worker, rows', result)
    decreases |Open(rows)|
  {
    var next := SelectNext(rows, now, lease, locked);
    if next.Some? && Exhausted(rows[next.value]) {
      var j := next.value;
      ClosingShrinks(rows, j);
      ClaimCallMeetsOutcome(rows[j := ExhaustedFailure(rows[j])], now, lease, locked, worker);
      var (rows', result) := ClaimCall(rows, now, lease, locked, worker);
      OutcomeAfterFailure(rows, j, now, lease, locked, worker, rows', result);
    } else {
      OutcomeAtOnce(rows, now, lease, locked, worker);
    }
  }

  lemma OutcomeAtOnce(rows: Rows, now: Time, lease: Time, locked: set<JobId>, worker: string)
    requires var next := SelectNext(rows, now, lease, locked); next.Some? ==> !Exhausted(rows[next.value])
    ensures match SelectNext(rows, now, lease, locked)
            case None => ClaimOutcome(rows, now, lease, locked, worker, rows, None)
            case Some(j) => ClaimOutcome(rows, now, lease, locked, worker, rows[j := Claimed(rows[j], now, worker)], Some(j))
  {
  }

  /** A fixed clock is a clock that may move: its outcome is one of those. */
  lemma FixedClockMayMove(rows: Rows, now: Time, lease: Time, locked: set<JobId>, worker: string, rows': Rows, result: Option<JobId>)
    requires ClaimOutcome(rows, now, lease, locked, worker, rows', result)
    ensures MovingClaimOutcome(rows, now, lease, locked, worker, rows', result)
  {
    var ids := Candidates(rows, now, lease, locked);
    if result.Some? {
      var usable := set j | j in ids && !Exhausted(rows[j]);
      forall j | j in ids && Before(rows, j, result.value) ensures Exhausted(rows[j]) {
        assert j in usable ==> Before(rows, result.value, j);
      }
    }
  }

  /** The outcome of a call is determined by the table it found. */
  lemma ClaimOutcomeUnique(rows: Rows, now: Time, lease: Time, locked: set<JobId>, worker: string,
                           a: Rows, x: Option<JobId>, b: Rows, y: Option<JobId>)
    requires ClaimOutcome(rows, now, lease, locked, worker, a, x)
    requires ClaimOutcome(rows, now, lease, locked, worker, b, y)
    ensures a == b && x == y
  {
    var usable := set j | j in Candidates(rows, now, lease, locked) && !Exhausted(rows[j]);
    if x.Some? && y.Some? {
      FirstIsUnique(rows, usable, x.value, y.value);
    }
  }
}
