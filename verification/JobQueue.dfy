/** The job table and the two objects that write to it: the worker's queue and
    the API's repository. Each call is one transaction. */
module JobQueue {
  import opened Sequences
  import opened Text
  import opened IngestJobs
  import opened MovingClock

  /** What the claim statement asks of a row: pending with its time come, or processing with its
      lease run out. */
  predicate Due(row: Job, now: Time, lease: Time) {
    || (row.status == Pending && (row.nextAttemptAt == None || row.nextAttemptAt.value <= now))
    || (row.status == Processing && (row.heartbeatAt == None || row.heartbeatAt.value <= now - lease))
  }

  function Limit(row: Job): nat { if row.maxAttempts == 0 then 1 else row.maxAttempts }

  /** The claim names the document of the row it was found on and what the call wrote there. That
      row was the first of those that nobody had locked, that were due and had an attempt left. */
  ghost predicate HandsOut(found: Rows, left: Rows, c: ClaimedJob, now: Time, lease: Time, locked: set<JobId>, worker: string) {
    && c.id in found && c.id in left && c.id !in locked
    && var row := found[c.id];
       && c.tenantId == row.tenantId && c.sourceId == row.sourceId && c.rawBucket == row.rawBucket && c.rawKey == row.rawKey
       && c.attempts == row.attempts + 1 && c.maxAttempts == row.maxAttempts && c.lockedBy == Some(worker)
       && left[c.id] == row.(status := Processing, error := None, attempts := row.attempts + 1, claimedAt := Some(now),
                             heartbeatAt := Some(now), lockedBy := Some(worker), nextAttemptAt := None)
       && Due(row, now, lease) && row.attempts < Limit(row)
       && forall k :: k in found && k != c.id && k !in locked && Due(found[k], now, lease) && found[k].attempts < Limit(found[k])
            ==> row.createdAt < found[k].createdAt || (row.createdAt == found[k].createdAt && c.id.uuid < k.uuid)
  }

  /** Every other row is left alone, or was due with no attempt left and is failed; without a
      claim, every due row that nobody had locked is failed. */
  ghost predicate FailsTheRest(found: Rows, left: Rows, claim: Option<ClaimedJob>, now: Time, lease: Time, locked: set<JobId>) {
    && left.Keys == found.Keys
    && (forall k :: k in found && left[k] != found[k] && (claim.Some? ==> k != claim.value.id) ==>
          && k !in locked && Due(found[k], now, lease) && found[k].attempts >= Limit(found[k])
          && left[k] == found[k].(status := Failed, lockedBy := None, nextAttemptAt := None, error :=
               Some("Ingest job exceeded max attempts (" + Digits(Limit(found[k])) + ") after worker lease expired")))
    && (claim.None? ==> forall k :: k in found && k !in locked && Due(found[k], now, lease) ==> left[k].status == Failed)
  }

  lemma OutcomeInFields(found: Rows, now: Time, lease: Time, locked: set<JobId>, worker: string, left: Rows, handed: Option<JobId>)
    requires MovingClaimOutcome(found, now, lease, locked, worker, left, handed)
    ensures var claim := if handed.Some? then Some(FromModel(handed.value, left[handed.value])) else None;
            && (claim.Some? ==> HandsOut(found, left, claim.value, now, lease, locked, worker))
            && FailsTheRest(found, left, claim, now, lease, locked)
  {
    var ids := Candidates(found, now, lease, locked);
    assert forall k :: k in ids <==> k in found && k !in locked && Due(found[k], now, lease);
    if handed.Some? {
      var usable := set k | k in ids && !Exhausted(found[k]);
      assert IsFirst(found, handed.value, usable);
      assert forall k :: k in found && k !in locked && Due(found[k], now, lease) && found[k].attempts < Limit(found[k]) ==> k in usable;
    }
  }

  /** What a worker's write says: it goes through exactly when the row is still there, still being
      processed, and still locked by the lock that the claim was given. */
  function LeaseVerdict(rows: Rows, claim: ClaimedJob): (r: Result<(), QueueError>)
    ensures r.Ok? <==> claim.id in rows && rows[claim.id].status == Processing && rows[claim.id].lockedBy == claim.lockedBy
    ensures r.Err? ==> r.error == (if claim.id !in rows then Disappeared(claim.id)
                                   else if rows[claim.id].status != Processing then NotProcessing(claim.id)
                                   else NotOwned(claim.id))
  {
    match LeaseCheck(rows, claim)
    case Some(e) => Err(e)
    case None => Ok(())
  }

  class JobTable {
    var rows: Rows

    constructor ()
      ensures rows == map[]
    {
      rows := map[];
    }
  }

  class DatabaseIngestJobQueue {
    const table: JobTable
    const leaseSeconds: Time
    const workerId: string

    constructor (table: JobTable, leaseSeconds: Time, workerId: string)
      requires leaseSeconds > 0.0
      ensures this.table == table && this.leaseSeconds == leaseSeconds && this.workerId == workerId
    {
      this.table := table;
      this.leaseSeconds := leaseSeconds;
      this.workerId := workerId;
    }

    /** One claim call: the loop, and what it comes to. */
    method ClaimNextPending(clock: Clock, locked: set<JobId>) returns (claim: Option<ClaimedJob>, looks: nat)
      requires NonDecreasing(clock)
      modifies table
      ensures looks > 0
      ensures claim.Some? ==> HandsOut(old(table.rows), table.rows, claim.value, clock(looks - 1), leaseSeconds, locked, workerId)
      ensures FailsTheRest(old(table.rows), table.rows, claim, clock(looks - 1), leaseSeconds, locked)
      ensures var r := CallResult(table.rows, if claim.Some? then Some(claim.value.id) else None, looks);
              && LoopFrom(old(table.rows), clock, 0, leaseSeconds, locked, workerId) == r
              && Outcomes(old(table.rows), clock, leaseSeconds, locked, workerId, r)
    {
      ghost var found := table.rows;
      claim, looks := ClaimLoop(clock, locked);
      CallMeetsOutcomes(found, clock, leaseSeconds, locked, workerId);
      OutcomeInFields(found, clock(looks - 1), leaseSeconds, locked, workerId, table.rows,
                      if claim.Some? then Some(claim.value.id) else None);
    }

    /** The claim loop. `clock(n)` is what the n-th read of the clock returns, and
        `locked` holds the rows that other transactions have locked. */
    method ClaimLoop(clock: Clock, locked: set<JobId>) returns (claim: Option<ClaimedJob>, looks: nat)
      modifies table
      ensures claim.Some? ==> claim.value.id in table.rows && claim.value == FromModel(claim.value.id, table.rows[claim.value.id])
      ensures LoopFrom(old(table.rows), clock, 0, leaseSeconds, locked, workerId) ==
              CallResult(table.rows, if claim.Some? then Some(claim.value.id) else None, looks)
    {
      ghost var found := table.rows;
      looks := 0;
      while true
        invariant LoopFrom(table.rows, clock, looks, leaseSeconds, locked, workerId) ==
                  LoopFrom(found, clock, 0, leaseSeconds, locked, workerId)
        decreases |Open(table.rows)|
      {
        var now := clock(looks);
        var next := SelectNext(table.rows, now, leaseSeconds, locked);
        looks := looks + 1;
        if next.None? {
          return None, looks;
        }
        var j := next.value;
        if Exhausted(table.rows[j]) {
          ClosingShrinks(table.rows, j);
          table.rows := table.rows[j := ExhaustedFailure(table.rows[j])];
          continue;
        }
        table.rows := table.rows[j := Claimed(table.rows[j], now, workerId)];
        return Some(FromModel(j, table.rows[j])), looks;
      }
    }

    method Heartbeat(job: ClaimedJob, now: Time) returns (r: Result<(), QueueError>)
      modifies table
      ensures r == LeaseVerdict(old(table.rows), job)
      ensures table.rows == if r.Err? then old(table.rows)
                            else old(table.rows)[job.id := old(table.rows)[job.id].(heartbeatAt := Some(now))]
    {
      if job.id !in table.rows {
        return Err(Disappeared(job.id));
      }
      var persisted := table.rows[job.id];
      if persisted.status != Processing {
        return Err(NotProcessing(job.id));
      }
      if persisted.lockedBy != job.lockedBy {
        return Err(NotOwned(job.id));
      }
      table.rows := table.rows[job.id := persisted.(heartbeatAt := Some(now))];
      return Ok(());
    }

    method MarkSucceeded(job: ClaimedJob) returns (r: Result<(), QueueError>)
      modifies table
      ensures r == LeaseVerdict(old(table.rows), job)
      ensures table.rows == if r.Err? then old(table.rows)
                            else old(table.rows)[job.id := old(table.rows)[job.id].(
                                   status := Succeeded, error := None, lockedBy := None, nextAttemptAt := None)]
    {
      r := UpdateStatus(job, Succeeded, None);
    }

    method MarkFailed(job: ClaimedJob, error: string) returns (r: Result<(), QueueError>)
      modifies table
      ensures r == LeaseVerdict(old(table.rows), job)
      ensures table.rows == if r.Err? then old(table.rows)
                            else old(table.rows)[job.id := old(table.rows)[job.id].(
                                   status := Failed, error := Some(error), lockedBy := None, nextAttemptAt := None)]
    {
      r := UpdateStatus(job, Failed, Some(error));
    }

    method UpdateStatus(claimed: ClaimedJob, status: Status, error: Option<string>) returns (r: Result<(), QueueError>)
      modifies table
      ensures r == LeaseVerdict(old(table.rows), claimed)
      ensures table.rows == if r.Err? then old(table.rows)
                            else old(table.rows)[claimed.id := old(table.rows)[claimed.id].(
                                   status := status, error := error, lockedBy := None, nextAttemptAt := None)]
    {
      if claimed.id !in table.rows {
        return Err(Disappeared(claimed.id));
      }
      var job := table.rows[claimed.id];
      if job.status != Processing {
        return Err(NotProcessing(claimed.id));
      }
      if job.lockedBy != claimed.lockedBy {
        return Err(NotOwned(claimed.id));
      }
      table.rows := table.rows[claimed.id :=
        job.(status := status, error := error, lockedBy := None, nextAttemptAt := None)];
      return Ok(());
    }
  }

  /** What goes wrong while a claimed document is processed: the exception's text and class name. */
  datatype Failure = Failure(message: string, className: string)

  /** What everybody else commits to the table between two writes of a worker. */
  type Others = Rows -> Rows

  /** One heartbeat attempt: what others did before it, and its time. */
  datatype Beat = Beat(others: Others, at: Time)

  /** The table after a claim's heartbeats, each of which the lease check lets through or not. */
  function AfterBeats(rows: Rows, job: ClaimedJob, beats: seq<Beat>): Rows {
    if beats == [] then rows
    else
      var last := beats[|beats| - 1];
      var found := last.others(AfterBeats(rows, job, beats[..|beats| - 1]));
      if Passes(found, job) then found[job.id := Beaten(found[job.id], last.at)] else found
  }

  /** The table after what others commit before each of the beats, without the beats. */
  function AfterOthers(rows: Rows, beats: seq<Beat>): Rows {
    if beats == [] then rows else beats[|beats| - 1].others(AfterOthers(rows, beats[..|beats| - 1]))
  }

  /** Others never read, write, remove or create the row. */
  ghost predicate LeaveAlone(beats: seq<Beat>, j: JobId) {
    forall i :: 0 <= i < |beats| ==> Ignores(beats[i].others, j)
  }

  ghost predicate Ignores(others: Others, j: JobId) {
    forall rows, job :: CommutesWithWrite(others, rows, j, job)
  }

  predicate CommutesWithWrite(others: Others, rows: Rows, j: JobId, job: Job) {
    others(rows[j := job]) == others(rows)[j := job]
  }

  /** While others leave the row alone, heartbeats change nothing but its heartbeat time: a claim
      that passes the lease check stamps it at every beat, and one that does not never writes. */
  lemma {:induction false} BeatsStampTheRow(rows: Rows, job: ClaimedJob, beats: seq<Beat>)
    requires job.id in rows && LeaveAlone(beats, job.id)
    ensures var row := rows[job.id];
            var holds := row.status == Processing && row.lockedBy == job.lockedBy;
            AfterBeats(rows, job, beats) == AfterOthers(rows, beats)[job.id :=
              if holds && beats != [] then row.(heartbeatAt := Some(beats[|beats| - 1].at)) else row]
    decreases |beats|
  {
    if beats == [] {
      assert rows[job.id := rows[job.id]] == rows;
    } else {
      var init, last := beats[..|beats| - 1], beats[|beats| - 1];
      assert beats == init + [last];
      assert forall i :: 0 <= i < |init| ==> init[i] == beats[i];
      BeatsStampTheRow(rows, job, init);
      assert Ignores(last.others, job.id);
      var row, before := rows[job.id], AfterOthers(rows, init);
      var seen := if row.status == Processing && row.lockedBy == job.lockedBy && init != []
                  then row.(heartbeatAt := Some(init[|init| - 1].at)) else row;
      assert CommutesWithWrite(last.others, before, job.id, seen);
      assert last.others(AfterBeats(rows, job, init)) == AfterOthers(rows, beats)[job.id := seen];
    }
  }

  class IngestWorker {
    const queue: DatabaseIngestJobQueue

    constructor (queue: DatabaseIngestJobQueue)
      ensures this.queue == queue
    {
      this.queue := queue;
    }

    /** Processing a claimed job: heartbeats run while the document is processed and stop
        before the one status write that ends the claim. Each write checks the lease on the
        table as it is then, after whatever others have committed meanwhile; `others` is what
        they commit before the status write. */
    method ProcessJob(job: ClaimedJob, beats: seq<Beat>, others: Others, failure: Option<Failure>) returns (r: Result<(), QueueError>)
      requires failure.Some? ==> failure.value.className != ""
      modifies queue.table
      ensures var found := others(AfterBeats(old(queue.table.rows), job, beats));
              && r == LeaseVerdict(found, job)
              && (r.Err? ==> queue.table.rows == found)
              && (r.Ok? ==> queue.table.rows == found[job.id := found[job.id].(
                    status := if failure.None? then Succeeded else Failed,
                    error := if failure.None? then None
                             else if Strip(failure.value.message) != "" then Some(Strip(failure.value.message))
                             else Some(failure.value.className),
                    lockedBy := None, nextAttemptAt := None)])
    {
      ghost var before := queue.table.rows;
      for i := 0 to |beats|
        invariant queue.table.rows == AfterBeats(before, job, beats[..i])
      {
        assert beats[..i + 1][..i] == beats[..i];
        queue.table.rows := beats[i].others(queue.table.rows);
        var _ := queue.Heartbeat(job, beats[i].at);
      }
      assert beats[..|beats|] == beats;
      queue.table.rows := others(queue.table.rows);
      if failure.Some? {
        r := queue.MarkFailed(job, ErrorMessage(failure.value.message, failure.value.className));
        return;
      }
      r := queue.MarkSucceeded(job);
    }
  }
}
