/** What the fields of a job row always say together, and what bounds the number
    of times a row can be handed out. */
module JobCoherence {
  import opened Sequences
  import opened IngestJobs
  import opened LeaseProtocol

  predicate Coherent(job: Job) {
    && job.maxAttempts >= 1
    && match job.status
       case Pending => job.attempts == 0 && job.lockedBy == None && job.claimedAt == None && job.heartbeatAt == None && job.error == None
       case Processing => job.attempts >= 1 && job.lockedBy.Some? && job.claimedAt.Some? && job.heartbeatAt.Some? && job.error == None
       case Succeeded => job.lockedBy == None && job.error == None
       case Failed => job.lockedBy == None && job.error.Some? && job.error.value != ""
  }

  ghost predicate AllCoherent(rows: Rows) { forall j :: j in rows ==> Coherent(rows[j]) }

  /** Every step of a worker or of the API keeps every row coherent. */
  lemma CoherentStep(s: State, lease: Time, step: Step)
    requires AllCoherent(s.rows) && Legal(s, lease, step)
    ensures AllCoherent(Next(s, lease, step).rows)
  {
    match step {
      case ClaimNext(call) => CoherentCall(s, lease, call);
      case Heartbeat(t) =>
      case Succeed(t) => CoherentFinish(s, t, Succeeded, None);
      case Fail(t, error) => CoherentFinish(s, t, Failed, Some(error));
      case _ =>
    }
  }

  lemma CoherentCall(s: State, lease: Time, c: Call)
    requires AllCoherent(s.rows) && Answers(s, lease, c)
    ensures AllCoherent(AfterClaim(s, c).rows)
  {
    ClaimFacts(s, lease, c);
    ClaimEpochs(s, lease, c);
    forall j | j in s.rows ensures Coherent(c.rows[j]) {
      if c.result != Some(j) && c.rows[j] != s.rows[j] {
        FailureTextNotEmpty(s.rows[j]);
      }
    }
  }

  lemma FailureTextNotEmpty(job: Job)
    requires Coherent(job)
    ensures Coherent(ExhaustedFailure(job))
  {
    assert ExhaustedFailure(job).error.value[0] == 'I';
  }

  lemma CoherentFinish(s: State, t: Token, status: Status, error: Option<string>)
    requires AllCoherent(s.rows)
    requires (status.Succeeded? && error == None) || (status.Failed? && error.Some? && error.value != "")
    ensures AllCoherent(AfterFinish(s, t, status, error).rows)
  {
  }

  lemma {:induction false} CoherentRun(s: State, lease: Time, steps: seq<Step>)
    requires AllCoherent(s.rows) && LegalRun(s, lease, steps)
    ensures AllCoherent(Run(s, lease, steps).rows)
    decreases steps
  {
    if steps != [] {
      CoherentStep(s, lease, steps[0]);
      CoherentRun(Next(s, lease, steps[0]), lease, steps[1..]);
    }
  }

  /** The claim loop fails a row as exhausted only when its processing lease has expired:
      a pending row always has an attempt left. */
  lemma ExhaustionOnlyAfterExpiry(s: State, lease: Time, c: Call, j: JobId)
    requires AllCoherent(s.rows) && Answers(s, lease, c) && j in s.rows
    requires c.rows[j] != s.rows[j] && c.rows[j].status.Failed?
    ensures s.rows[j].status.Processing? && s.rows[j].heartbeatAt.Some?
    ensures s.rows[j].heartbeatAt.value <= c.at - lease && c.at <= s.clock
    ensures s.rows[j].attempts >= s.rows[j].maxAttempts
  {
    ClaimFacts(s, lease, c);
  }

  // ---------------------------------------------------- rows and documents

  /** Whose document a row is for never changes, nor when the row was created. */
  predicate SameDocument(a: Job, b: Job) { a.tenantId == b.tenantId && a.sourceId == b.sourceId && a.createdAt == b.createdAt }

  lemma DocumentStaysInStep(s: State, lease: Time, step: Step, j: JobId)
    requires Legal(s, lease, step) && j in s.rows
    ensures j in Next(s, lease, step).rows && SameDocument(Next(s, lease, step).rows[j], s.rows[j])
  {
    if step.ClaimNext? {
      ClaimFacts(s, lease, step.call);
      ClaimEpochs(s, lease, step.call);
    }
  }

  /** No run takes a row away, gives it to another document or changes when it was created. */
  lemma {:induction false} DocumentStays(s: State, lease: Time, steps: seq<Step>, j: JobId)
    requires LegalRun(s, lease, steps) && j in s.rows
    ensures var s' := Run(s, lease, steps); j in s'.rows && SameDocument(s'.rows[j], s.rows[j])
    decreases steps
  {
    if steps != [] {
      DocumentStaysInStep(s, lease, steps[0], j);
      DocumentStays(Next(s, lease, steps[0]), lease, steps[1..], j);
    }
  }

  /** An outstanding claim is for its row's document, and while it is the latest change of
      ownership it says all that the row says: key, bucket and attempts. */
  predicate ClaimMatches(claim: ClaimedJob, row: Job, current: bool) {
    && claim.tenantId == row.tenantId && claim.sourceId == row.sourceId
    && (current ==> claim.rawBucket == row.rawBucket && claim.rawKey == row.rawKey
                    && claim.attempts == row.attempts && claim.maxAttempts == row.maxAttempts)
  }

  ghost predicate ClaimsMatch(s: State) {
    forall t :: t in s.held ==>
      s.held[t].claim.id in s.rows && ClaimMatches(s.held[t].claim, s.rows[s.held[t].claim.id], Current(s, t))
  }

  lemma ClaimsMatchAfterCall(s: State, lease: Time, c: Call)
    requires Fenced(s) && ClaimsMatch(s) && Answers(s, lease, c)
    ensures ClaimsMatch(AfterClaim(s, c))
  {
    var s' := AfterClaim(s, c);
    ClaimFacts(s, lease, c);
    ClaimEpochs(s, lease, c);
    HandedOut(s, lease, c);
    forall t | t in s'.held
      ensures s'.held[t].claim.id in s'.rows && ClaimMatches(s'.held[t].claim, s'.rows[s'.held[t].claim.id], Current(s', t))
    {
      if t in s.held {
        assert s'.held[t] == s.held[t];
        assert ClaimMatches(s.held[t].claim, s.rows[s.held[t].claim.id], Current(s, t));
      }
    }
  }

  lemma ClaimsMatchInStep(s: State, lease: Time, step: Step)
    requires Fenced(s) && ClaimsMatch(s) && Legal(s, lease, step)
    ensures ClaimsMatch(Next(s, lease, step))
  {
    if step.ClaimNext? {
      ClaimsMatchAfterCall(s, lease, step.call);
    } else {
      var s' := Next(s, lease, step);
      forall t | t in s'.held
        ensures s'.held[t].claim.id in s'.rows && ClaimMatches(s'.held[t].claim, s'.rows[s'.held[t].claim.id], Current(s', t))
      {
        ClaimKeepsMatching(s, lease, step, t);
      }
    }
  }

  /** A step other than a claim call leaves the row's contents as they are, or ends or supersedes the claim. */
  lemma ClaimKeepsMatching(s: State, lease: Time, step: Step, t: Token)
    requires Fenced(s) && ClaimsMatch(s) && Legal(s, lease, step) && !step.ClaimNext? && t in Next(s, lease, step).held
    ensures var s' := Next(s, lease, step);
            s'.held[t].claim.id in s'.rows && ClaimMatches(s'.held[t].claim, s'.rows[s'.held[t].claim.id], Current(s', t))
  {
    assert t in s.held && Next(s, lease, step).held[t].claim == s.held[t].claim;
    DocumentStaysInStep(s, lease, step, s.held[t].claim.id);
    ContentsStay(s, lease, step, t);
  }

  lemma ContentsStay(s: State, lease: Time, step: Step, t: Token)
    requires Fenced(s) && Legal(s, lease, step) && !step.ClaimNext? && t in s.held && t in Next(s, lease, step).held
    ensures KeepsContents(s, Next(s, lease, step), t)
  {
    match step {
      case Heartbeat(u) => BeatKeepsContents(s, lease, u, t);
      case Succeed(u) => FinishKeepsContents(s, u, Succeeded, None, t);
      case Fail(u, error) => FinishKeepsContents(s, u, Failed, Some(error), t);
      case ApiCreate(j, tenant, source, bucket, key, maxAttempts) =>
        WriteKeepsContents(s, j, NewPending(tenant, source, bucket, key, maxAttempts, s.clock), t);
      case ApiReset(j, bucket, key, maxAttempts) =>
        if j in s.rows { WriteKeepsContents(s, j, ResetPending(s.rows[j], bucket, key, maxAttempts), t); }
      case ApiTake(j) =>
        if j in s.rows { WriteKeepsContents(s, j, SyncClaimed(s.rows[j], s.clock), t); }
      case ApiSucceed(j) =>
        if j in s.rows { WriteKeepsContents(s, j, Finished(s.rows[j], Succeeded, None), t); }
      case ApiFail(j, error) =>
        if j in s.rows { WriteKeepsContents(s, j, Finished(s.rows[j], Failed, Some(error)), t); }
      case _ =>
    }
  }

  /** If the claim is still the latest change of ownership of its row, it was before, and the row
      says the same, but for its heartbeat. */
  predicate KeepsContents(s: State, s': State, t: Token)
    requires t in s.held && t in s'.held
  {
    var j := s.held[t].claim.id;
    Current(s', t) ==> Current(s, t) && j in s.rows && j in s'.rows && s'.rows[j] == s.rows[j].(heartbeatAt := s'.rows[j].heartbeatAt)
  }

  lemma BeatKeepsContents(s: State, lease: Time, u: Token, t: Token)
    requires Fenced(s) && t in s.held
    ensures t in Next(s, lease, Heartbeat(u)).held && KeepsContents(s, Next(s, lease, Heartbeat(u)), t)
  {
  }

  lemma WriteKeepsContents(s: State, j: JobId, job: Job, t: Token)
    requires Fenced(s) && t in s.held
    ensures KeepsContents(s, Write(s, j, job), t)
  {
  }

  lemma FinishKeepsContents(s: State, u: Token, status: Status, error: Option<string>, t: Token)
    requires Fenced(s) && t in s.held && t in AfterFinish(s, u, status, error).held
    ensures KeepsContents(s, AfterFinish(s, u, status, error), t)
  {
  }

  lemma {:induction false} ClaimsMatchInRun(s: State, lease: Time, steps: seq<Step>)
    requires Fenced(s) && ClaimsMatch(s) && LegalRun(s, lease, steps)
    ensures ClaimsMatch(Run(s, lease, steps))
    decreases steps
  {
    if steps != [] {
      FencedStep(s, lease, steps[0]);
      ClaimsMatchInStep(s, lease, steps[0]);
      ClaimsMatchInRun(Next(s, lease, steps[0]), lease, steps[1..]);
    }
  }

  // ------------------------------------------------------------ retry budget

  predicate WithinLimit(job: Job) { job.attempts <= AttemptLimit(job) }

  ghost predicate AllWithinLimit(rows: Rows) { forall j :: j in rows ==> WithinLimit(rows[j]) }

  /** How many more events a row can see: claims, and one end. */
  function Allowance(job: Job): nat
  {
    if Terminal(job) then 0
    else if job.attempts <= AttemptLimit(job) then AttemptLimit(job) - job.attempts + 1
    else 0
  }

  ghost function Budget(rows: Rows): nat
    decreases |rows|
  {
    if rows == map[] then 0
    else
      assert |rows.Keys| == |rows|;
      var j :| j in rows;
      Allowance(rows[j]) + Budget(rows - {j})
  }

  lemma {:induction false} BudgetSplit(rows: Rows, j: JobId)
    requires j in rows
    ensures Budget(rows) == Allowance(rows[j]) + Budget(rows - {j})
    decreases |rows|
  {
    var k :| k in rows && Budget(rows) == Allowance(rows[k]) + Budget(rows - {k});
    if k != j {
      BudgetSplit(rows - {k}, j);
      assert (rows - {k}) - {j} == (rows - {j}) - {k};
      BudgetSplit(rows - {j}, k);
    }
  }

  lemma BudgetUpdate(rows: Rows, j: JobId, job: Job)
    requires j in rows
    ensures Budget(rows[j := job]) == Budget(rows) - Allowance(rows[j]) + Allowance(job)
  {
    BudgetSplit(rows, j);
    BudgetSplit(rows[j := job], j);
    assert rows[j := job] - {j} == rows - {j};
  }

  ghost function Changed(before: Rows, after: Rows): set<JobId> {
    set j | j in before && j in after && before[j] != after[j]
  }

  /** The rows that a step fails. */
  ghost function Failures(before: Rows, after: Rows): set<JobId> {
    set j | j in before && j in after && after[j].status.Failed? && !before[j].status.Failed?
  }

  lemma CallChangesRow(s: State, lease: Time, c: Call, j: JobId)
    requires Answers(s, lease, c)
    ensures j in Changed(s.rows, c.rows) <==> j in Failures(s.rows, c.rows) || c.result == Some(j)
    ensures c.result == Some(j) ==> j !in Failures(s.rows, c.rows)
  {
    ClaimFacts(s, lease, c);
    if c.result == Some(j) {
      ClaimChangesRow(s.rows[j], c.at, c.worker);
    }
  }

  /** The rows that a claim call changes are the row it hands out and the rows it fails. */
  lemma CallChanges(s: State, lease: Time, c: Call)
    requires Answers(s, lease, c)
    ensures |Changed(s.rows, c.rows)| == |Failures(s.rows, c.rows)| + (if c.result.Some? then 1 else 0)
  {
    var failed := Failures(s.rows, c.rows);
    forall j ensures j in Changed(s.rows, c.rows) <==> j in failed || c.result == Some(j) {
      CallChangesRow(s, lease, c, j);
    }
    if c.result.Some? {
      CallChangesRow(s, lease, c, c.result.value);
      assert Changed(s.rows, c.rows) == failed + {c.result.value};
    } else {
      assert Changed(s.rows, c.rows) == failed;
    }
  }

  /** Claims, ends of claims and exhaustion failures; every other step counts nothing. */
  ghost function Events(s: State, step: Step): nat {
    match step
    case ClaimNext(call) => |Changed(s.rows, call.rows)|
    case Succeed(t) => if t in s.held && Passes(s.rows, s.held[t].claim) then 1 else 0
    case Fail(t, _) => if t in s.held && Passes(s.rows, s.held[t].claim) then 1 else 0
    case _ => 0
  }

  ghost function TotalEvents(s: State, lease: Time, steps: seq<Step>): nat
    decreases steps
  {
    if steps == [] then 0
    else Events(s, steps[0]) + TotalEvents(Next(s, lease, steps[0]), lease, steps[1..])
  }

  ghost predicate Spends(before: Rows, after: Rows, j: JobId)
    requires j in before && j in after
  {
    after[j] != before[j] ==> Allowance(after[j]) < Allowance(before[j])
  }

  /** When every changed row has less left than before, the budget pays for each change. */
  lemma {:induction false} ChangesSpendBudget(before: Rows, after: Rows)
    requires after.Keys == before.Keys
    requires forall j :: j in before ==> Spends(before, after, j)
    ensures Budget(after) + |Changed(before, after)| <= Budget(before)
    decreases |before|
  {
    if before == map[] {
      assert after == map[] && Changed(before, after) == {};
    } else {
      assert |before.Keys| == |before|;
      var j :| j in before;
      forall k | k in before - {j} ensures Spends(before - {j}, after - {j}, k) {
        assert Spends(before, after, k);
      }
      ChangesSpendBudget(before - {j}, after - {j});
      BudgetSplit(before, j);
      BudgetSplit(after, j);
      ChangedWithout(before, after, j);
      assert Spends(before, after, j);
    }
  }

  lemma ChangedWithout(before: Rows, after: Rows, j: JobId)
    requires j in before && j in after
    ensures |Changed(before, after)| == |Changed(before - {j}, after - {j})| + (if after[j] != before[j] then 1 else 0)
  {
    var rest := Changed(before - {j}, after - {j});
    assert Changed(before, after) == if after[j] != before[j] then rest + {j} else rest;
  }

  lemma CallSpendsBudget(s: State, lease: Time, c: Call)
    requires AllWithinLimit(s.rows) && Answers(s, lease, c)
    ensures AllWithinLimit(c.rows)
    ensures Budget(c.rows) + |Changed(s.rows, c.rows)| <= Budget(s.rows)
  {
    ClaimFacts(s, lease, c);
    forall j | j in s.rows ensures Spends(s.rows, c.rows, j) && WithinLimit(c.rows[j]) {
      assert WithinLimit(s.rows[j]);
    }
    ChangesSpendBudget(s.rows, c.rows);
  }

  lemma StepSpendsBudget(s: State, lease: Time, step: Step)
    requires AllWithinLimit(s.rows) && Legal(s, lease, step) && !IsApiStep(step)
    ensures AllWithinLimit(Next(s, lease, step).rows)
    ensures Budget(Next(s, lease, step).rows) + Events(s, step) <= Budget(s.rows)
  {
    match step {
      case ClaimNext(call) =>
        CallSpendsBudget(s, lease, call);
        ClaimEpochs(s, lease, call);
      case Heartbeat(t) =>
        if t in s.held && Passes(s.rows, s.held[t].claim) {
          var j := s.held[t].claim.id;
          BudgetUpdate(s.rows, j, Beaten(s.rows[j], s.clock));
        }
      case Succeed(t) => FinishSpendsBudget(s, t, Succeeded, None);
      case Fail(t, error) => FinishSpendsBudget(s, t, Failed, Some(error));
      case _ =>
    }
  }

  lemma FinishSpendsBudget(s: State, t: Token, status: Status, error: Option<string>)
    requires AllWithinLimit(s.rows) && (status.Succeeded? || status.Failed?)
    ensures var s' := AfterFinish(s, t, status, error);
            && AllWithinLimit(s'.rows)
            && Budget(s'.rows) + (if t in s.held && Passes(s.rows, s.held[t].claim) then 1 else 0) <= Budget(s.rows)
  {
    if t in s.held && Passes(s.rows, s.held[t].claim) {
      var j := s.held[t].claim.id;
      BudgetUpdate(s.rows, j, Finished(s.rows[j], status, error));
    }
  }

  ghost predicate NoApiSteps(steps: seq<Step>) { forall i :: 0 <= i < |steps| ==> !IsApiStep(steps[i]) }

  /** In any run of workers alone, no row is ever handed out beyond its attempt limit, and
      the claims, ends and exhaustion failures of the whole run are bounded by the budget
      of the table it started from. */
  lemma {:induction false} WorkerRunIsBounded(s: State, lease: Time, steps: seq<Step>)
    requires AllWithinLimit(s.rows) && LegalRun(s, lease, steps) && NoApiSteps(steps)
    ensures AllWithinLimit(Run(s, lease, steps).rows)
    ensures Budget(Run(s, lease, steps).rows) + TotalEvents(s, lease, steps) <= Budget(s.rows)
    decreases steps
  {
    if steps != [] {
      assert !IsApiStep(steps[0]);
      StepSpendsBudget(s, lease, steps[0]);
      WorkerRunIsBounded(Next(s, lease, steps[0]), lease, steps[1..]);
    }
  }

  /** The API writes to other rows at most. */
  predicate ApiElsewhere(step: Step, j: JobId) { IsApiStep(step) ==> step.id != j }

  ghost predicate ApiLeaves(steps: seq<Step>, j: JobId) { forall i :: 0 <= i < |steps| ==> ApiElsewhere(steps[i], j) }

  lemma TerminalRowStays(s: State, lease: Time, step: Step, j: JobId)
    requires Legal(s, lease, step) && ApiElsewhere(step, j) && j in s.rows && Terminal(s.rows[j])
    ensures j in Next(s, lease, step).rows && Next(s, lease, step).rows[j] == s.rows[j]
  {
    if step.ClaimNext? {
      ClaimFacts(s, lease, step.call);
      ClaimEpochs(s, lease, step.call);
    }
  }

  /** Workers never leave a final status: a terminal row is the same after any run in which the
      API leaves it alone. */
  lemma {:induction false} TerminalRowsStay(s: State, lease: Time, steps: seq<Step>, j: JobId)
    requires LegalRun(s, lease, steps) && ApiLeaves(steps, j) && j in s.rows && Terminal(s.rows[j])
    ensures var s' := Run(s, lease, steps); j in s'.rows && s'.rows[j] == s.rows[j]
    decreases steps
  {
    if steps != [] {
      assert ApiElsewhere(steps[0], j);
      assert forall i :: 0 <= i < |steps[1..]| ==> steps[1..][i] == steps[i + 1];
      TerminalRowStays(s, lease, steps[0], j);
      TerminalRowsStay(Next(s, lease, steps[0]), lease, steps[1..], j);
    }
  }
}
