/** The lease protocol: any number of workers and the API act on one job table,
    one transaction at a time, under one clock that never goes back. A state
    records, beside the table, which claims are outstanding and how often the
    ownership of each row has changed. */
module LeaseProtocol {
  import opened Sequences
  import opened IngestJobs

  type Token = nat

  /** An outstanding claim: what the worker was handed, the row's ownership count at
      that moment, and the time of its last successful heartbeat. */
  datatype Holding = Holding(claim: ClaimedJob, epoch: nat, beat: Time)

  datatype State = State(rows: Rows, clock: Time, held: map<Token, Holding>, next: Token, epochs: map<JobId, nat>)

  /** A claim call as it went: who called, when it decided, which rows it skipped as locked,
      the table it left, and the row it handed out. */
  datatype Call = Call(worker: string, at: Time, locked: set<JobId>, rows: Rows, result: Option<JobId>)

  datatype Step =
    | ClaimNext(call: Call)
    | Heartbeat(token: Token)
    | Succeed(token: Token)
    | Fail(token: Token, error: string)
    | Crash(token: Token)
    | Tick(elapsed: Time)
    | ApiCreate(id: JobId, tenant: string, source: string, bucket: string, key: string, maxAttempts: nat)
    | ApiReset(id: JobId, bucket: string, key: string, maxAttempts: nat)
    | ApiTake(id: JobId)
    | ApiSucceed(id: JobId)
    | ApiFail(id: JobId, error: string)

  predicate IsApiStep(step: Step) {
    step.ApiCreate? || step.ApiReset? || step.ApiTake? || step.ApiSucceed? || step.ApiFail?
  }

  function Epoch(s: State, j: JobId): nat { if j in s.epochs then s.epochs[j] else 0 }

  /** The row's ownership changes: the count goes up. */
  function Bump(s: State, j: JobId): map<JobId, nat> { s.epochs[j := Epoch(s, j) + 1] }

  /** The call went as the claim loop can go from this state, under a clock that may move. */
  ghost predicate Answers(s: State, lease: Time, c: Call) {
    c.at <= s.clock && MovingClaimOutcome(s.rows, c.at, lease, c.locked, c.worker, c.rows, c.result)
  }

  /** The call of a loop that runs while the clock stands still. */
  function CallNow(s: State, lease: Time, worker: string, locked: set<JobId>): Call {
    var (rows, result) := ClaimCall(s.rows, s.clock, lease, locked, worker);
    Call(worker, s.clock, locked, rows, result)
  }

  function AfterClaim(s: State, c: Call): State {
    var epochs := s.epochs + map j | j in s.rows && j in c.rows && c.rows[j] != s.rows[j] :: Epoch(s, j) + 1;
    match c.result
    case None => s.(rows := c.rows, epochs := epochs)
    case Some(j) =>
      if j !in c.rows then s
      else
        var epoch := if j in epochs then epochs[j] else 0;
        State(c.rows, s.clock, s.held[s.next := Holding(FromModel(j, c.rows[j]), epoch, c.at)], s.next + 1, epochs)
  }

  /** The end of a claim: the row takes its final status if the lease check passes. */
  function AfterFinish(s: State, t: Token, status: Status, error: Option<string>): State {
    if t !in s.held then s
    else
      var claim := s.held[t].claim;
      var dropped := s.(held := s.held - {t});
      if Passes(s.rows, claim) then
        dropped.(rows := s.rows[claim.id := Finished(s.rows[claim.id], status, error)], epochs := Bump(s, claim.id))
      else dropped
  }

  function Write(s: State, j: JobId, job: Job): State {
    s.(rows := s.rows[j := job], epochs := Bump(s, j))
  }

  function Next(s: State, lease: Time, step: Step): State {
    match step
    case ClaimNext(call) => AfterClaim(s, call)
    case Heartbeat(t) =>
      if t in s.held && Passes(s.rows, s.held[t].claim) then
        var j := s.held[t].claim.id;
        s.(rows := s.rows[j := Beaten(s.rows[j], s.clock)], held := s.held[t := s.held[t].(beat := s.clock)])
      else s
    case Succeed(t) => AfterFinish(s, t, Succeeded, None)
    case Fail(t, error) => AfterFinish(s, t, Failed, Some(error))
    case Crash(t) => s.(held := s.held - {t})
    case Tick(elapsed) => s.(clock := s.clock + elapsed)
    case ApiCreate(j, tenant, source, bucket, key, maxAttempts) =>
      Write(s, j, NewPending(tenant, source, bucket, key, maxAttempts, s.clock))
    case ApiReset(j, bucket, key, maxAttempts) =>
      if j in s.rows then Write(s, j, ResetPending(s.rows[j], bucket, key, maxAttempts)) else s
    case ApiTake(j) => if j in s.rows then Write(s, j, SyncClaimed(s.rows[j], s.clock)) else s
    case ApiSucceed(j) => if j in s.rows then Write(s, j, Finished(s.rows[j], Succeeded, None)) else s
    case ApiFail(j, error) => if j in s.rows then Write(s, j, Finished(s.rows[j], Failed, Some(error))) else s
  }

  predicate Busy(s: State, worker: string) {
    exists t :: t in s.held && s.held[t].claim.lockedBy == Some(worker)
  }

  /** Which steps can be taken: a claim call goes as the claim loop does, the clock does
      not go back, created ids are new, the default attempt limit is positive, errors are
      not empty, and a worker id is never `api-sync`. */
  ghost predicate Legal(s: State, lease: Time, step: Step) {
    match step
    case ClaimNext(call) => call.worker != API_SYNC && Answers(s, lease, call)
    case Fail(_, error) => error != ""
    case Tick(elapsed) => elapsed >= 0.0
    case ApiCreate(j, _, _, _, _, maxAttempts) => j !in s.rows && maxAttempts >= 1
    case ApiReset(_, _, _, maxAttempts) => maxAttempts >= 1
    case ApiFail(_, error) => error != ""
    case _ => true
  }

  /** A worker id that holds a claim does not claim again before it ends. */
  predicate Disciplined(s: State, step: Step) { step.ClaimNext? ==> !Busy(s, step.call.worker) }

  function Run(s: State, lease: Time, steps: seq<Step>): State
    decreases steps
  {
    if steps == [] then s else Run(Next(s, lease, steps[0]), lease, steps[1..])
  }

  ghost predicate LegalRun(s: State, lease: Time, steps: seq<Step>)
    decreases steps
  {
    steps == [] ||
    (Legal(s, lease, steps[0]) && Disciplined(s, steps[0]) && LegalRun(Next(s, lease, steps[0]), lease, steps[1..]))
  }

  predicate Initial(s: State) { s.held == map[] }

  // ----------------------------------------------------------------- fencing

  /** The claim is the latest change of ownership of its row. */
  predicate Current(s: State, t: Token)
    requires t in s.held
  {
    s.held[t].epoch == Epoch(s, s.held[t].claim.id)
  }

  /** The row is being processed under the lock that the claim was given. */
  predicate Owns(row: Job, claim: ClaimedJob) { row.status.Processing? && row.lockedBy == claim.lockedBy }

  /** How a claim stands to its row and the row's ownership count: it is not from the
      future, and it owns the row exactly when it is the latest change of ownership. */
  predicate InStep(h: Holding, row: Job, epoch: nat) {
    && h.claim.lockedBy.Some? && h.claim.lockedBy != Some(API_SYNC)
    && h.epoch <= epoch
    && (Owns(row, h.claim) <==> h.epoch == epoch)
    && (h.epoch == epoch ==> row.heartbeatAt == Some(h.beat))
  }

  /** The fence: outstanding claims are in step with their rows, and no two of them
      are held under one worker id. */
  ghost predicate Fenced(s: State) {
    && (forall t :: t in s.held ==>
          && t < s.next
          && s.held[t].claim.id in s.rows
          && InStep(s.held[t], s.rows[s.held[t].claim.id], Epoch(s, s.held[t].claim.id)))
    && (forall t, u :: t in s.held && u in s.held && t != u ==> s.held[t].claim.lockedBy != s.held[u].claim.lockedBy)
  }

  /** What a claim call does to the rows: it hands one out, and fails others as exhausted. */
  lemma ClaimFacts(s: State, lease: Time, c: Call)
    requires Answers(s, lease, c)
    ensures c.rows.Keys == s.rows.Keys
    ensures c.result.Some? ==>
              && c.result.value in s.rows && c.rows[c.result.value] == Claimed(s.rows[c.result.value], c.at, c.worker)
              && Claimable(s.rows[c.result.value], c.at, lease) && !Exhausted(s.rows[c.result.value])
    ensures forall j :: j in s.rows && c.result != Some(j) && c.rows[j] != s.rows[j] ==>
              c.rows[j] == ExhaustedFailure(s.rows[j]) && Claimable(s.rows[j], c.at, lease) && Exhausted(s.rows[j])
  {
  }

  /** A call at a standing clock is a legal one. */
  lemma CallNowAnswers(s: State, lease: Time, worker: string, locked: set<JobId>)
    ensures Answers(s, lease, CallNow(s, lease, worker, locked))
  {
    var c := CallNow(s, lease, worker, locked);
    ClaimCallMeetsOutcome(s.rows, s.clock, lease, locked, worker);
    FixedClockMayMove(s.rows, s.clock, lease, locked, worker, c.rows, c.result);
  }

  lemma ClaimEpochs(s: State, lease: Time, c: Call)
    requires Answers(s, lease, c)
    ensures var s' := AfterClaim(s, c);
            && s'.rows == c.rows && c.rows.Keys == s.rows.Keys && s'.clock == s.clock
            && forall j :: j in s.rows ==> Epoch(s', j) == if c.rows[j] != s.rows[j] then Epoch(s, j) + 1 else Epoch(s, j)
  {
    ClaimFacts(s, lease, c);
  }

  lemma ClaimChangesRow(job: Job, now: Time, worker: string)
    ensures Claimed(job, now, worker) != job
  {
    assert Claimed(job, now, worker).attempts == job.attempts + 1;
  }

  lemma InStepAfterClaim(s: State, lease: Time, c: Call, t: Token)
    requires Fenced(s) && Answers(s, lease, c) && !Busy(s, c.worker) && t in s.held
    ensures var s', j := AfterClaim(s, c), s.held[t].claim.id;
            && j in s'.rows && InStep(s.held[t], s'.rows[j], Epoch(s', j))
            && s.held[t].claim.lockedBy != Some(c.worker)
  {
    ClaimFacts(s, lease, c);
    ClaimEpochs(s, lease, c);
    assert !(s.held[t].claim.lockedBy == Some(c.worker));
  }

  lemma HandedOut(s: State, lease: Time, c: Call)
    requires Answers(s, lease, c)
    ensures var s' := AfterClaim(s, c);
            match c.result
            case None => s'.held == s.held && s'.next == s.next
            case Some(j) =>
              j in s'.rows && s'.next == s.next + 1 && s'.rows[j].heartbeatAt == Some(c.at) &&
              var h := Holding(FromModel(j, s'.rows[j]), Epoch(s', j), c.at);
              s'.held == s.held[s.next := h] && Owns(s'.rows[j], h.claim) && h.claim.lockedBy == Some(c.worker)
  {
    ClaimFacts(s, lease, c);
  }

  lemma FencedByParts(s: State, s': State)
    requires Fenced(s) && s'.held == s.held && s'.next >= s.next
    requires forall t :: t in s.held ==>
               var j := s.held[t].claim.id; j in s'.rows && InStep(s.held[t], s'.rows[j], Epoch(s', j))
    ensures Fenced(s')
  {
  }

  lemma FencedWithNew(s: State, s': State, h: Holding)
    requires Fenced(s) && s'.held == s.held && s'.next == s.next + 1
    requires h.claim.id in s'.rows && InStep(h, s'.rows[h.claim.id], Epoch(s', h.claim.id))
    requires forall t :: t in s.held ==>
               var j := s.held[t].claim.id;
               j in s'.rows && InStep(s.held[t], s'.rows[j], Epoch(s', j)) && s.held[t].claim.lockedBy != h.claim.lockedBy
    ensures Fenced(s'.(held := s.held[s.next := h]))
  {
    assert forall j :: Epoch(s'.(held := s.held[s.next := h]), j) == Epoch(s', j);
  }

  lemma FencedAfterClaim(s: State, lease: Time, c: Call)
    requires Fenced(s) && Answers(s, lease, c) && c.worker != API_SYNC && !Busy(s, c.worker)
    ensures Fenced(AfterClaim(s, c))
  {
    var s' := AfterClaim(s, c);
    HandedOut(s, lease, c);
    forall t | t in s.held
      ensures var j := s.held[t].claim.id;
              j in s'.rows && InStep(s.held[t], s'.rows[j], Epoch(s', j)) && s.held[t].claim.lockedBy != Some(c.worker)
    {
      InStepAfterClaim(s, lease, c, t);
    }
    match c.result {
      case None => FencedByParts(s, s');
      case Some(j) =>
        var before := s'.(held := s.held);
        assert forall k :: Epoch(before, k) == Epoch(s', k);
        FencedWithNew(s, before, s'.held[s.next]);
    }
  }

  lemma FencedAfterWrite(s: State, j: JobId, job: Job)
    requires Fenced(s)
    requires job.status.Processing? ==> job.lockedBy == Some(API_SYNC)
    ensures Fenced(Write(s, j, job))
  {
    var s' := Write(s, j, job);
    forall t | t in s.held
      ensures InStep(s.held[t], s'.rows[s.held[t].claim.id], Epoch(s', s.held[t].claim.id))
    {
    }
  }

  lemma FencedAfterDrop(s: State, t: Token)
    requires Fenced(s)
    ensures Fenced(s.(held := s.held - {t}))
  {
    var s' := s.(held := s.held - {t});
    assert forall j :: Epoch(s', j) == Epoch(s, j);
  }

  lemma FencedAfterFinish(s: State, t: Token, status: Status, error: Option<string>)
    requires Fenced(s) && (status.Succeeded? || status.Failed?)
    ensures Fenced(AfterFinish(s, t, status, error))
  {
    if t in s.held {
      var dropped := s.(held := s.held - {t});
      FencedAfterDrop(s, t);
      var claim := s.held[t].claim;
      if Passes(s.rows, claim) {
        FencedAfterWrite(dropped, claim.id, Finished(s.rows[claim.id], status, error));
        assert Epoch(dropped, claim.id) == Epoch(s, claim.id);
      }
    }
  }

  /** Every step of a worker or of the API keeps the fence. */
  lemma FencedStep(s: State, lease: Time, step: Step)
    requires Fenced(s) && Legal(s, lease, step) && Disciplined(s, step)
    ensures Fenced(Next(s, lease, step))
  {
    match step {
      case ClaimNext(call) => FencedAfterClaim(s, lease, call);
      case Heartbeat(t) =>
        if t in s.held && Passes(s.rows, s.held[t].claim) {
          FencedAfterBeat(s, t);
        }
      case Succeed(t) => FencedAfterFinish(s, t, Succeeded, None);
      case Fail(t, error) => FencedAfterFinish(s, t, Failed, Some(error));
      case Crash(t) => FencedAfterDrop(s, t);
      case Tick(elapsed) => assert forall j :: Epoch(s.(clock := s.clock + elapsed), j) == Epoch(s, j);
      case ApiCreate(j, tenant, source, bucket, key, maxAttempts) =>
        FencedAfterWrite(s, j, NewPending(tenant, source, bucket, key, maxAttempts, s.clock));
      case ApiReset(j, bucket, key, maxAttempts) =>
        if j in s.rows { FencedAfterWrite(s, j, ResetPending(s.rows[j], bucket, key, maxAttempts)); }
      case ApiTake(j) =>
        if j in s.rows { FencedAfterWrite(s, j, SyncClaimed(s.rows[j], s.clock)); }
      case ApiSucceed(j) =>
        if j in s.rows { FencedAfterWrite(s, j, Finished(s.rows[j], Succeeded, None)); }
      case ApiFail(j, error) =>
        if j in s.rows { FencedAfterWrite(s, j, Finished(s.rows[j], Failed, Some(error))); }
    }
  }

  lemma FencedAfterBeat(s: State, t: Token)
    requires Fenced(s) && t in s.held && Passes(s.rows, s.held[t].claim)
    ensures var j := s.held[t].claim.id;
            Fenced(s.(rows := s.rows[j := Beaten(s.rows[j], s.clock)], held := s.held[t := s.held[t].(beat := s.clock)]))
  {
    var j := s.held[t].claim.id;
    var s' := s.(rows := s.rows[j := Beaten(s.rows[j], s.clock)], held := s.held[t := s.held[t].(beat := s.clock)]);
    assert forall k :: Epoch(s', k) == Epoch(s, k);
    forall u | u in s.held
      ensures InStep(s'.held[u], s'.rows[s.held[u].claim.id], Epoch(s, s.held[u].claim.id))
    {
      assert u != t ==> s.held[u].claim.lockedBy != s.held[t].claim.lockedBy;
    }
  }

  lemma {:induction false} FencedRun(s: State, lease: Time, steps: seq<Step>)
    requires Fenced(s) && LegalRun(s, lease, steps)
    ensures Fenced(Run(s, lease, steps))
    decreases steps
  {
    if steps != [] {
      FencedStep(s, lease, steps[0]);
      FencedRun(Next(s, lease, steps[0]), lease, steps[1..]);
    }
  }

  /** Fencing, in every reachable state: at most one outstanding claim on a row passes
      the lease check, and it is the one of the latest change of ownership. */
  lemma AtMostOneClaimPasses(s0: State, lease: Time, steps: seq<Step>, t: Token, u: Token)
    requires Initial(s0) && LegalRun(s0, lease, steps)
    requires t in Run(s0, lease, steps).held && u in Run(s0, lease, steps).held
    ensures var s := Run(s0, lease, steps);
            && (Passes(s.rows, s.held[t].claim) <==> Current(s, t))
            && (Passes(s.rows, s.held[t].claim) && Passes(s.rows, s.held[u].claim) && s.held[t].claim.id == s.held[u].claim.id
                ==> t == u)
  {
    FencedRun(s0, lease, steps);
  }

  /** A claim that is over or superseded. */
  predicate Lost(s: State, t: Token) { t < s.next && (t in s.held ==> s.held[t].epoch < Epoch(s, s.held[t].claim.id)) }

  lemma LostStep(s: State, lease: Time, step: Step, t: Token)
    requires Fenced(s) && Legal(s, lease, step) && Disciplined(s, step) && Lost(s, t)
    ensures Lost(Next(s, lease, step), t)
  {
    if step.ClaimNext? {
      LostThroughClaim(s, lease, step.call, t);
    }
  }

  lemma LostThroughClaim(s: State, lease: Time, c: Call, t: Token)
    requires Fenced(s) && Answers(s, lease, c) && Lost(s, t)
    ensures Lost(AfterClaim(s, c), t)
  {
    ClaimEpochs(s, lease, c);
    HandedOut(s, lease, c);
  }

  /** A worker whose job was reclaimed, reset or taken by the API never again changes a
      row: after any further run its claim is still lost, and its heartbeat, success or
      failure leaves the whole table as it is. */
  lemma {:induction false} LostForever(s: State, lease: Time, steps: seq<Step>, t: Token, error: string)
    requires Fenced(s) && LegalRun(s, lease, steps) && Lost(s, t)
    ensures var s' := Run(s, lease, steps);
            && Lost(s', t)
            && Next(s', lease, Heartbeat(t)).rows == s'.rows
            && Next(s', lease, Succeed(t)).rows == s'.rows
            && Next(s', lease, Fail(t, error)).rows == s'.rows
    decreases steps
  {
    if steps != [] {
      FencedStep(s, lease, steps[0]);
      LostStep(s, lease, steps[0], t);
      LostForever(Next(s, lease, steps[0]), lease, steps[1..], t, error);
    }
  }

  /** What makes a claim lost: a claim call hands its row to someone or fails it as exhausted. */
  lemma ReclaimedIsLost(s: State, lease: Time, c: Call, t: Token)
    requires Fenced(s) && Answers(s, lease, c) && t in s.held
    requires c.rows[s.held[t].claim.id] != s.rows[s.held[t].claim.id]
    ensures Lost(AfterClaim(s, c), t)
  {
    ClaimEpochs(s, lease, c);
  }

  /** Or the API resets, takes or finishes its row. */
  lemma ApiWriteIsLost(s: State, lease: Time, step: Step, t: Token)
    requires Fenced(s) && t in s.held
    requires (step.ApiReset? || step.ApiTake? || step.ApiSucceed? || step.ApiFail?) && step.id == s.held[t].claim.id
    ensures Lost(Next(s, lease, step), t)
  {
  }

  // ------------------------------------------------- why ids must be distinct

  const SHARED_JOB := JobId(0)

  function SharedStart(): State {
    State(map[SHARED_JOB := NewPending("t", "s", "b", "k", 3, 0.0)], 0.0, map[], 0, map[])
  }

  /** Two processes with one worker id: the first claims and stalls past the lease,
      the second claims the same row, and then the first process's superseded claim
      passes the lease check and ends the second one's job. Every step is one that the
      claim loop can take. */
  lemma SharedWorkerIdBreaksFence() returns (first: Call, second: Call)
    ensures var steps := [ClaimNext(first), Tick(1.0), ClaimNext(second)];
            var s := Run(SharedStart(), 1.0, steps);
            && Initial(SharedStart()) && first.worker == second.worker
            && Answers(SharedStart(), 1.0, first) && Answers(Run(SharedStart(), 1.0, steps[..2]), 1.0, second)
            && 0 in s.held && 1 in s.held && s.held[0].claim.id == s.held[1].claim.id
            && Lost(s, 0) && Current(s, 1)
            && Passes(s.rows, s.held[0].claim)
            && !Passes(Next(s, 1.0, Succeed(0)).rows, s.held[1].claim)
  {
    var s0 := SharedStart();
    var s1, late, s2;
    first, s1, late, second, s2 := StolenStates("host:1", "host:1");
    RunThree(s0, 1.0, ClaimNext(first), Tick(1.0), ClaimNext(second));
    RunTwo(s0, 1.0, ClaimNext(first), Tick(1.0));
    assert [ClaimNext(first), Tick(1.0), ClaimNext(second)][..2] == [ClaimNext(first), Tick(1.0)];
  }

  lemma RunTwo(s: State, lease: Time, a: Step, b: Step)
    ensures Run(s, lease, [a, b]) == Next(Next(s, lease, a), lease, b)
  {
    assert [a, b][1..] == [b] && [b][1..] == [];
    assert Run(Next(s, lease, a), lease, [b]) == Run(Next(Next(s, lease, a), lease, b), lease, []);
  }

  lemma RunThree(s: State, lease: Time, a: Step, b: Step, c: Step)
    ensures Run(s, lease, [a, b, c]) == Next(Next(Next(s, lease, a), lease, b), lease, c)
  {
    var s1, s2 := Next(s, lease, a), Next(Next(s, lease, a), lease, b);
    assert [a, b, c][1..] == [b, c] && [b, c][1..] == [c];
    assert Run(s, lease, [a, b, c]) == Run(s1, lease, [b, c]);
    assert Run(s1, lease, [b, c]) == Run(s2, lease, [c]);
    assert [c][1..] == [] && Run(s2, lease, [c]) == Run(Next(s2, lease, c), lease, []);
  }

  /** One worker claims the only row and stalls for a whole lease, and then a second one claims it. */
  lemma StolenStates(worker: string, thief: string) returns (first: Call, s1: State, late: State, second: Call, s2: State)
    ensures first.worker == worker && second.worker == thief
    ensures Answers(SharedStart(), 1.0, first) && Answers(late, 1.0, second)
    ensures s1 == Next(SharedStart(), 1.0, ClaimNext(first))
    ensures late == Next(s1, 1.0, Tick(1.0))
    ensures s2 == Next(late, 1.0, ClaimNext(second))
    ensures 0 in late.held && Passes(late.rows, late.held[0].claim) && forall t :: t in late.held ==> t == 0
    ensures late.held[0].claim.lockedBy == Some(worker)
    ensures 0 in s2.held && 1 in s2.held && s2.next == 2 && s2.held[0] == late.held[0]
    ensures s2.held[0].claim.id == s2.held[1].claim.id == SHARED_JOB
    ensures s2.held[0].epoch == 1 && s2.held[1].epoch == 2 && Epoch(s2, SHARED_JOB) == 2
    ensures SHARED_JOB in s2.rows && s2.rows[SHARED_JOB].status == Processing && s2.rows[SHARED_JOB].lockedBy == Some(thief)
    ensures s2.held[0].claim.lockedBy == Some(worker) && s2.held[1].claim.lockedBy == Some(thief)
  {
    first, s1, late := FirstClaimed(worker);
    second := CallNow(late, 1.0, thief, {});
    ClaimOnlyRow(late, 1.0, thief, {}, SHARED_JOB);
    s2 := Next(late, 1.0, ClaimNext(second));
  }

  lemma FirstClaimed(worker: string) returns (first: Call, s1: State, late: State)
    ensures first.worker == worker && Answers(SharedStart(), 1.0, first)
    ensures s1 == Next(SharedStart(), 1.0, ClaimNext(first)) && late == Next(s1, 1.0, Tick(1.0))
    ensures late.next == 1 && 0 in late.held && late.held[0].claim.id == SHARED_JOB && late.held[0].claim.lockedBy == Some(worker)
    ensures Passes(late.rows, late.held[0].claim) && forall t :: t in late.held ==> t == 0
    ensures late.held[0].epoch == 1 && Epoch(late, SHARED_JOB) == 1
    ensures Candidates(late.rows, late.clock, 1.0, {}) == {SHARED_JOB} && !Exhausted(late.rows[SHARED_JOB])
  {
    var s0 := SharedStart();
    assert Candidates(s0.rows, s0.clock, 1.0, {}) == {SHARED_JOB};
    first := CallNow(s0, 1.0, worker, {});
    ClaimOnlyRow(s0, 1.0, worker, {}, SHARED_JOB);
    s1 := Next(s0, 1.0, ClaimNext(first));
    late := Next(s1, 1.0, Tick(1.0));
    assert Epoch(late, SHARED_JOB) == Epoch(s1, SHARED_JOB);
  }

  // --------------------------------------- why a write must be one transaction

  /** The second half of a status write or heartbeat whose lease check was done on an earlier
      table: the row is written as it is now, unchecked. */
  function LateFinish(s: State, j: JobId, status: Status, error: Option<string>): State
    requires j in s.rows
  {
    Write(s, j, Finished(s.rows[j], status, error))
  }

  function LateBeat(s: State, j: JobId): Rows
    requires j in s.rows
  {
    s.rows[j := Beaten(s.rows[j], s.clock)]
  }

  /** In any state, a final status written late over another worker's current claim ends that
      claim: its own lease check no longer passes. A late heartbeat renews the other's lease. */
  lemma LateWriteHitsTheOwner(s: State, u: Token, status: Status, error: Option<string>)
    requires Fenced(s) && u in s.held && Current(s, u) && Terminal(Finished(s.rows[s.held[u].claim.id], status, error))
    ensures Passes(s.rows, s.held[u].claim)
    ensures !Passes(LateFinish(s, s.held[u].claim.id, status, error).rows, s.held[u].claim)
    ensures LateBeat(s, s.held[u].claim.id)[s.held[u].claim.id].heartbeatAt == Some(s.clock)
  {
  }

  /** So the fence needs each read and write to be one transaction: two workers with ids of their
      own, a legal and disciplined run. The first one's lease check passes; before its write lands
      the second one claims the row, and then the write ends the second one's job although the
      first one's claim is lost. */
  lemma SplitWriteBreaksFence(worker: string, thief: string) returns (first: Call, second: Call)
    requires worker != thief && worker != API_SYNC && thief != API_SYNC
    ensures first.worker == worker && second.worker == thief
    ensures var s0, steps := SharedStart(), [ClaimNext(first), Tick(1.0), ClaimNext(second)];
            var read, s := Run(s0, 1.0, steps[..2]), Run(s0, 1.0, steps);
            && Initial(s0) && LegalRun(s0, 1.0, steps)
            && 0 in read.held && Passes(read.rows, read.held[0].claim)
            && 0 in s.held && 1 in s.held && s.held[0].claim.id == s.held[1].claim.id && s.held[1].claim.id in s.rows
            && Lost(s, 0) && Current(s, 1) && Passes(s.rows, s.held[1].claim)
            && !Passes(LateFinish(s, s.held[0].claim.id, Succeeded, None).rows, s.held[1].claim)
  {
    var s0 := SharedStart();
    var s1, late, s2;
    first, s1, late, second, s2 := StolenStates(worker, thief);
    RunThree(s0, 1.0, ClaimNext(first), Tick(1.0), ClaimNext(second));
    RunTwo(s0, 1.0, ClaimNext(first), Tick(1.0));
    assert [ClaimNext(first), Tick(1.0), ClaimNext(second)][..2] == [ClaimNext(first), Tick(1.0)];
    LegalThree(s0, 1.0, ClaimNext(first), Tick(1.0), ClaimNext(second));
  }

  lemma LegalThree(s: State, lease: Time, a: Step, b: Step, c: Step)
    requires Legal(s, lease, a) && Disciplined(s, a)
    requires var s1 := Next(s, lease, a); Legal(s1, lease, b) && Disciplined(s1, b)
    requires var s2 := Next(Next(s, lease, a), lease, b); Legal(s2, lease, c) && Disciplined(s2, c)
    ensures LegalRun(s, lease, [a, b, c])
  {
    var s1, s2 := Next(s, lease, a), Next(Next(s, lease, a), lease, b);
    assert [a, b, c][1..] == [b, c] && [b, c][1..] == [c] && [c][1..] == [];
    assert LegalRun(s2, lease, [c]);
    assert LegalRun(s1, lease, [b, c]);
  }

  /** A claim call whose only candidate has an attempt left hands out that row. */
  lemma ClaimOnlyRow(s: State, lease: Time, worker: string, locked: set<JobId>, j: JobId)
    requires Candidates(s.rows, s.clock, lease, locked) == {j} && !Exhausted(s.rows[j])
    ensures var c := CallNow(s, lease, worker, locked);
            var s', row := AfterClaim(s, c), Claimed(s.rows[j], s.clock, worker);
            && Answers(s, lease, c)
            && s'.rows == s.rows[j := row] && s'.clock == s.clock && s'.next == s.next + 1
            && Epoch(s', j) == Epoch(s, j) + 1
            && s'.held == s.held[s.next := Holding(FromModel(j, row), Epoch(s, j) + 1, s.clock)]
  {
    var c := CallNow(s, lease, worker, locked);
    assert j in Candidates(s.rows, s.clock, lease, locked);
    assert SelectNext(s.rows, s.clock, lease, locked) == Some(j);
    ClaimChangesRow(s.rows[j], s.clock, worker);
    CallNowAnswers(s, lease, worker, locked);
    ClaimEpochs(s, lease, c);
  }
}
