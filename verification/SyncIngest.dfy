/** Ingest and queueing inside a request, among workers and other requests: its row writes are
    committed one by one, so that others can act between them. */
module SyncIngest {
  import opened Sequences
  import opened IngestJobs
  import opened LeaseProtocol
  import opened JobCoherence

  /** How often workers were handed row `j` in a run. */
  function HandOuts(s: State, lease: Time, steps: seq<Step>, j: JobId): nat
    decreases steps
  {
    if steps == [] then 0
    else
      (if steps[0].ClaimNext? && steps[0].call.result == Some(j) then 1 else 0)
      + HandOuts(Next(s, lease, steps[0]), lease, steps[1..], j)
  }

  lemma StepCounts(s: State, lease: Time, step: Step, j: JobId)
    requires Legal(s, lease, step) && ApiElsewhere(step, j) && j in s.rows
    ensures var rows := Next(s, lease, step).rows;
            && j in rows && rows[j].maxAttempts == s.rows[j].maxAttempts
            && rows[j].rawBucket == s.rows[j].rawBucket && rows[j].rawKey == s.rows[j].rawKey
            && (if step.ClaimNext? && step.call.result == Some(j) then
                  rows[j].attempts == s.rows[j].attempts + 1 <= AttemptLimit(s.rows[j])
                else rows[j].attempts == s.rows[j].attempts)
  {
    if step.ClaimNext? {
      ClaimFacts(s, lease, step.call);
      ClaimEpochs(s, lease, step.call);
    }
  }

  /** In any run in which the API leaves the row alone, its attempts go up by exactly the times
      it is handed out, and never beyond its limit; its key stays. */
  lemma {:induction false} AttemptsCountHandOuts(s: State, lease: Time, steps: seq<Step>, j: JobId)
    requires LegalRun(s, lease, steps) && ApiLeaves(steps, j) && j in s.rows
    ensures var rows := Run(s, lease, steps).rows;
            && j in rows && rows[j].maxAttempts == s.rows[j].maxAttempts
            && rows[j].rawBucket == s.rows[j].rawBucket && rows[j].rawKey == s.rows[j].rawKey
            && rows[j].attempts == s.rows[j].attempts + HandOuts(s, lease, steps, j)
            && (rows[j].attempts <= AttemptLimit(s.rows[j]) || rows[j].attempts == s.rows[j].attempts)
    decreases steps
  {
    if steps != [] {
      assert ApiElsewhere(steps[0], j);
      assert forall i :: 0 <= i < |steps[1..]| ==> steps[1..][i] == steps[i + 1];
      StepCounts(s, lease, steps[0], j);
      AttemptsCountHandOuts(Next(s, lease, steps[0]), lease, steps[1..], j);
    }
  }

  /** The row is created or reset, taken, and finished, with runs of others in between. */
  function Taken(s: State, lease: Time, reset: Step, before: seq<Step>, j: JobId): State {
    Next(Run(Next(s, lease, reset), lease, before), lease, ApiTake(j))
  }

  function Ended(s: State, lease: Time, reset: Step, before: seq<Step>, j: JobId, between: seq<Step>, finish: Step): State {
    Next(Run(Taken(s, lease, reset, before, j), lease, between), lease, finish)
  }

  predicate Resets(s: State, reset: Step, j: JobId) {
    (reset.ApiCreate? && reset.id == j) || (reset.ApiReset? && reset.id == j && j in s.rows)
  }

  predicate Finishes(finish: Step, j: JobId) { (finish.ApiSucceed? || finish.ApiFail?) && finish.id == j }

  /** Whatever workers do between the request's writes and after them, and whatever other
      requests write to other rows, the row ends as the request says, unlocked and with all
      claims on it lost. Its attempts are one plus the times that workers were handed it
      meanwhile, at most one beyond its limit. */
  lemma SyncIngestEnds(s: State, lease: Time, reset: Step, before: seq<Step>, j: JobId,
                       between: seq<Step>, finish: Step, after: seq<Step>)
    requires Fenced(s) && Legal(s, lease, reset) && Resets(s, reset, j)
    requires LegalRun(Next(s, lease, reset), lease, before) && ApiLeaves(before, j)
    requires LegalRun(Taken(s, lease, reset, before, j), lease, between) && ApiLeaves(between, j)
    requires Finishes(finish, j) && (finish.ApiFail? ==> finish.error != "")
    requires LegalRun(Ended(s, lease, reset, before, j, between, finish), lease, after) && ApiLeaves(after, j)
    ensures var s' := Run(Ended(s, lease, reset, before, j, between, finish), lease, after);
            var workers := HandOuts(Next(s, lease, reset), lease, before, j)
                           + HandOuts(Taken(s, lease, reset, before, j), lease, between, j);
            && Fenced(s') && j in s'.rows
            && s'.rows[j].status == (if finish.ApiSucceed? then Succeeded else Failed)
            && s'.rows[j].error == (if finish.ApiSucceed? then None else Some(finish.error))
            && s'.rows[j].lockedBy == None
            && s'.rows[j].attempts == 1 + workers <= AttemptLimit(s'.rows[j]) + 1
            && (forall t :: t in s'.held && s'.held[t].claim.id == j ==> Lost(s', t))
  {
    var pending, taken := Next(s, lease, reset), Taken(s, lease, reset, before, j);
    var ended := Ended(s, lease, reset, before, j, between, finish);
    SyncRowEnds(s, lease, reset, before, j, between, finish);
    TerminalRowsStay(ended, lease, after, j);
    FencedStep(s, lease, reset);
    FencedRun(pending, lease, before);
    FencedStep(Run(pending, lease, before), lease, ApiTake(j));
    FencedRun(taken, lease, between);
    FencedStep(Run(taken, lease, between), lease, finish);
    FencedRun(ended, lease, after);
    EndedRowHasNoOwner(Run(ended, lease, after), j);
  }

  lemma SyncRowEnds(s: State, lease: Time, reset: Step, before: seq<Step>, j: JobId, between: seq<Step>, finish: Step)
    requires Legal(s, lease, reset) && Resets(s, reset, j)
    requires LegalRun(Next(s, lease, reset), lease, before) && ApiLeaves(before, j)
    requires LegalRun(Taken(s, lease, reset, before, j), lease, between) && ApiLeaves(between, j)
    requires Finishes(finish, j)
    ensures var rows := Ended(s, lease, reset, before, j, between, finish).rows;
            var workers := HandOuts(Next(s, lease, reset), lease, before, j)
                           + HandOuts(Taken(s, lease, reset, before, j), lease, between, j);
            && j in rows && Terminal(rows[j]) && rows[j].lockedBy == None
            && rows[j].status == (if finish.ApiSucceed? then Succeeded else Failed)
            && rows[j].error == (if finish.ApiSucceed? then None else Some(finish.error))
            && rows[j].attempts == 1 + workers <= AttemptLimit(rows[j]) + 1
  {
    AttemptsCountHandOuts(Next(s, lease, reset), lease, before, j);
    AttemptsCountHandOuts(Taken(s, lease, reset, before, j), lease, between, j);
  }

  lemma EndedRowHasNoOwner(s: State, j: JobId)
    requires Fenced(s) && j in s.rows && Terminal(s.rows[j])
    ensures forall t :: t in s.held && s.held[t].claim.id == j ==> Lost(s, t)
  {
  }

  // ------------------------------------------- how long the API's lock holds

  /** Every claim call decides before time `end`. */
  predicate ClaimsBefore(steps: seq<Step>, end: Time) {
    forall i :: 0 <= i < |steps| && steps[i].ClaimNext? ==> steps[i].call.at < end
  }

  /** The row of a request that took it at time `t`. */
  predicate HeldByApi(row: Job, t: Time) {
    row.status == Processing && row.lockedBy == Some("api-sync") && row.heartbeatAt == Some(t)
  }

  lemma HeldThroughStep(s: State, lease: Time, step: Step, j: JobId, t: Time)
    requires Fenced(s) && Legal(s, lease, step) && ApiElsewhere(step, j)
    requires step.ClaimNext? ==> step.call.at < t + lease
    requires j in s.rows && HeldByApi(s.rows[j], t)
    ensures j in Next(s, lease, step).rows && Next(s, lease, step).rows[j] == s.rows[j]
  {
    if step.ClaimNext? {
      ClaimFacts(s, lease, step.call);
      ClaimEpochs(s, lease, step.call);
    }
  }

  lemma {:induction false} HeldThroughRun(s: State, lease: Time, steps: seq<Step>, j: JobId, t: Time)
    requires Fenced(s) && LegalRun(s, lease, steps) && ApiLeaves(steps, j) && ClaimsBefore(steps, t + lease)
    requires j in s.rows && HeldByApi(s.rows[j], t)
    ensures var s' := Run(s, lease, steps); Fenced(s') && j in s'.rows && s'.rows[j] == s.rows[j]
    decreases steps
  {
    if steps != [] {
      assert ApiElsewhere(steps[0], j);
      assert forall i :: 0 <= i < |steps[1..]| ==> steps[1..][i] == steps[i + 1];
      HeldThroughStep(s, lease, steps[0], j, t);
      FencedStep(s, lease, steps[0]);
      HeldThroughRun(Next(s, lease, steps[0]), lease, steps[1..], j, t);
    }
  }

  /** A request that takes a row keeps it for a whole lease: as long as every claim call decides
      before the lease has run out, the row is as the request left it after any interleaving with
      workers, and with the API on other rows, and no claim on it is good. A worker can select it
      from the moment at which the lease has run out. */
  lemma TakenRowIsSafe(s: State, lease: Time, j: JobId, steps: seq<Step>, now: Time, locked: set<JobId>)
    requires Fenced(s) && j in s.rows
    requires LegalRun(Next(s, lease, ApiTake(j)), lease, steps) && ApiLeaves(steps, j) && ClaimsBefore(steps, s.clock + lease)
    ensures var s', row := Run(Next(s, lease, ApiTake(j)), lease, steps), s.rows[j];
            && j in s'.rows
            && s'.rows[j] == row.(status := Processing, error := None, attempts := row.attempts + 1, claimedAt := Some(s.clock),
                                  heartbeatAt := Some(s.clock), lockedBy := Some("api-sync"), nextAttemptAt := None)
            && (forall t :: t in s'.held && s'.held[t].claim.id == j ==> !Passes(s'.rows, s'.held[t].claim))
            && (j in Candidates(s'.rows, now, lease, locked) <==> j !in locked && now >= s.clock + lease)
  {
    var taken := Next(s, lease, ApiTake(j));
    FencedStep(s, lease, ApiTake(j));
    HeldThroughRun(taken, lease, steps, j, s.clock);
  }

  /** The request never beats: when a whole lease has passed, the first worker whose claim call
      finds no other row free gets the row or fails it, while the request is still at work. */
  lemma LongRequestLosesRow(s: State, lease: Time, j: JobId, elapsed: Time, worker: string) returns (late: State, call: Call)
    requires Fenced(s) && j in s.rows && elapsed >= lease > 0.0 && worker != API_SYNC && !Busy(s, worker)
    ensures late == Run(s, lease, [ApiTake(j), Tick(elapsed)]) && LegalRun(s, lease, [ApiTake(j), Tick(elapsed)])
    ensures call.worker == worker && Legal(late, lease, ClaimNext(call)) && Disciplined(late, ClaimNext(call))
    ensures j in call.rows
    ensures if s.rows[j].attempts + 1 < AttemptLimit(s.rows[j]) then call.result == Some(j) && call.rows[j].lockedBy == Some(worker)
            else call.rows[j].status == Failed
  {
    RunTwo(s, lease, ApiTake(j), Tick(elapsed));
    LegalTwo(s, lease, ApiTake(j), Tick(elapsed));
    late := s.(rows := s.rows[j := SyncClaimed(s.rows[j], s.clock)], epochs := Bump(s, j), clock := s.clock + elapsed);
    var others := s.rows.Keys - {j};
    assert forall k :: k in Candidates(late.rows, late.clock, lease, others) <==> k == j;
    call := CallNow(late, lease, worker, others);
    CallNowAnswers(late, lease, worker, others);
    OnlyCandidate(late, lease, call, j);
  }

  lemma OnlyCandidate(s: State, lease: Time, c: Call, j: JobId)
    requires Answers(s, lease, c) && j in s.rows && c.at == s.clock
    requires forall k :: k in Candidates(s.rows, s.clock, lease, c.locked) <==> k == j
    ensures j in c.rows && if Exhausted(s.rows[j]) then c.rows[j] == ExhaustedFailure(s.rows[j])
                           else c.result == Some(j) && c.rows[j] == Claimed(s.rows[j], c.at, c.worker)
  {
    ClaimFacts(s, lease, c);
    assert j in Candidates(s.rows, s.clock, lease, c.locked);
  }

  lemma LegalTwo(s: State, lease: Time, a: Step, b: Step)
    requires Legal(s, lease, a) && Disciplined(s, a)
    requires Legal(Next(s, lease, a), lease, b) && Disciplined(Next(s, lease, a), b)
    ensures LegalRun(s, lease, [a, b])
  {
    assert [a, b][1..] == [b] && [b][1..] == [];
    assert LegalRun(Next(s, lease, a), lease, [b]);
  }

  // ----------------------------------------------------------------- queueing

  /** The row is created or reset before the upload, and after it reset again or failed. */
  function Queued(s: State, lease: Time, reset: Step, before: seq<Step>, again: Step): State {
    Next(Run(Next(s, lease, reset), lease, before), lease, again)
  }

  predicate EndsUpload(again: Step, j: JobId) { (again.ApiReset? || again.ApiFail?) && again.id == j }

  /** Whatever others do between the two writes of a queueing request and after them: every claim
      on the row from before the second write is lost. After an upload the row carries its key and
      has been attempted exactly as often as workers were handed it since; after a failed upload
      it stays failed, unlocked, with all claims on it lost. */
  lemma QueueingEnds(s: State, lease: Time, reset: Step, before: seq<Step>, j: JobId, again: Step, after: seq<Step>)
    requires Fenced(s) && Legal(s, lease, reset) && Resets(s, reset, j)
    requires LegalRun(Next(s, lease, reset), lease, before) && ApiLeaves(before, j)
    requires EndsUpload(again, j) && Legal(Run(Next(s, lease, reset), lease, before), lease, again)
    requires LegalRun(Queued(s, lease, reset, before, again), lease, after) && ApiLeaves(after, j)
    ensures var written, queued := Run(Next(s, lease, reset), lease, before), Queued(s, lease, reset, before, again);
            var s' := Run(queued, lease, after);
            && Fenced(s') && j in s'.rows
            && (forall t :: t in written.held && written.held[t].claim.id == j ==> Lost(s', t))
            && (match again
                case ApiFail(_, error) =>
                  && s'.rows[j].status == Failed && s'.rows[j].error == Some(error) && s'.rows[j].lockedBy == None
                  && s'.rows[j].attempts == HandOuts(Next(s, lease, reset), lease, before, j)
                  && forall t :: t in s'.held && s'.held[t].claim.id == j ==> Lost(s', t)
                case _ =>
                  && s'.rows[j].rawBucket == again.bucket && s'.rows[j].rawKey == again.key
                  && s'.rows[j].maxAttempts == again.maxAttempts
                  && s'.rows[j].attempts == HandOuts(queued, lease, after, j) <= again.maxAttempts)
  {
    var pending, queued := Next(s, lease, reset), Queued(s, lease, reset, before, again);
    var written := Run(pending, lease, before);
    FencedStep(s, lease, reset);
    FencedRun(pending, lease, before);
    FencedStep(written, lease, again);
    FencedRun(queued, lease, after);
    AttemptsCountHandOuts(pending, lease, before, j);
    EarlierClaimsAreLost(written, lease, again, j, after);
    if again.ApiFail? {
      TerminalRowsStay(queued, lease, after, j);
      EndedRowHasNoOwner(Run(queued, lease, after), j);
    } else {
      AttemptsCountHandOuts(queued, lease, after, j);
    }
  }

  lemma EarlierClaimsAreLost(s: State, lease: Time, again: Step, j: JobId, after: seq<Step>)
    requires Fenced(s) && EndsUpload(again, j) && Legal(s, lease, again) && LegalRun(Next(s, lease, again), lease, after)
    ensures forall t :: t in s.held && s.held[t].claim.id == j ==> Lost(Run(Next(s, lease, again), lease, after), t)
  {
    FencedStep(s, lease, again);
    forall t | t in s.held && s.held[t].claim.id == j ensures Lost(Run(Next(s, lease, again), lease, after), t) {
      ApiWriteIsLost(s, lease, again, t);
      LostForever(Next(s, lease, again), lease, after, t, "");
    }
  }
}
