/** The claim loop under a clock that moves while it runs: the loop as a function of what
    its reads of the clock return, and exactly when it still does what one pass would. */
module MovingClock {
  import opened Sequences
  import opened IngestJobs

  type Clock = nat -> Time

  ghost predicate NonDecreasing(clock: Clock) { forall m, n :: m <= n ==> clock(m) <= clock(n) }

  /** The table that a call leaves, the row it hands out, and how often it has read the clock. */
  datatype CallResult = CallResult(rows: Rows, handed: Option<JobId>, looks: nat)

  /** The rest of a call that has read the clock `i` times and sees `rows`. */
  function LoopFrom(rows: Rows, clock: Clock, i: nat, lease: Time, locked: set<JobId>, worker: string): (r: CallResult)
    ensures r.looks > i
    decreases |Open(rows)|
  {
    var now := clock(i);
    match SelectNext(rows, now, lease, locked)
    case None => CallResult(rows, None, i + 1)
    case Some(j) =>
      if Exhausted(rows[j]) then
        ClosingShrinks(rows, j);
        LoopFrom(rows[j := ExhaustedFailure(rows[j])], clock, i + 1, lease, locked, worker)
      else
        CallResult(rows[j := Claimed(rows[j], now, worker)], Some(j), i + 1)
  }

  /** The call does what one pass over the table does at the time of its last read. */
  ghost predicate Exact(rows: Rows, clock: Clock, lease: Time, locked: set<JobId>, worker: string) {
    var r := LoopFrom(rows, clock, 0, lease, locked, worker);
    ClaimOutcome(rows, clock(r.looks - 1), lease, locked, worker, r.rows, r.handed)
  }

  // ------------------------------------------------------ when it is not exact

  /** The row is a candidate out of attempts, and no candidate with one left comes before it. */
  ghost predicate FirstAt(rows: Rows, a: JobId, t: Time, lease: Time, locked: set<JobId>) {
    && a in Candidates(rows, t, lease, locked) && Exhausted(rows[a])
    && forall b :: b in Candidates(rows, t, lease, locked) && !Exhausted(rows[b]) ==> Before(rows, a, b)
  }

  /** The first time, not before `from`, at which an open row is claimable. */
  function ReadyAt(job: Job, from: Time, lease: Time): Time {
    if Claimable(job, from, lease) then from
    else
      match job.status
      case Pending => job.nextAttemptAt.value
      case Processing => job.heartbeatAt.value + lease
      case _ => from
  }

  /** The row is one that the call can come to, if the clock moves far enough. */
  predicate Waiting(rows: Rows, j: JobId, locked: set<JobId>) { j in rows && j !in locked && !Terminal(rows[j]) }

  /** Row `a` can be failed before row `b`, which has an attempt left and comes before it in the
      order, is claimable. */
  ghost predicate Overtakes(rows: Rows, a: JobId, b: JobId, t0: Time, lease: Time, locked: set<JobId>) {
    && Waiting(rows, a, locked) && Waiting(rows, b, locked)
    && Exhausted(rows[a]) && !Exhausted(rows[b]) && Before(rows, b, a)
    && FirstAt(rows, a, ReadyAt(rows[a], t0, lease), lease, locked)
  }

  /** A call whose first read is `t0` reads the clock again, and can fail a row too many. */
  ghost predicate CanOvershoot(rows: Rows, t0: Time, lease: Time, locked: set<JobId>) {
    && (exists a :: FirstAt(rows, a, t0, lease, locked))
    && (exists a, b :: Overtakes(rows, a, b, t0, lease, locked))
  }

  lemma ClaimableLater(job: Job, t: Time, t': Time, lease: Time)
    requires t <= t' && Claimable(job, t, lease)
    ensures Claimable(job, t', lease)
  {
  }

  lemma ReadyIsFirst(job: Job, from: Time, now: Time, lease: Time)
    requires !Terminal(job)
    ensures from <= ReadyAt(job, from, lease) && Claimable(job, ReadyAt(job, from, lease), lease)
    ensures from <= now && Claimable(job, now, lease) ==> ReadyAt(job, from, lease) <= now
  {
  }

  // ------------------------------------------------------------------ progress

  /** The state of the claim loop: what differs from the table it found are rows
      out of attempts that were candidates by `last` and are failed now. */
  ghost predicate LoopProgress(found: Rows, seen: Rows, last: Time, lease: Time, locked: set<JobId>) {
    && seen.Keys == found.Keys
    && forall j :: j in found && seen[j] != found[j] ==>
         && j !in locked && Claimable(found[j], last, lease)
         && Exhausted(found[j]) && seen[j] == ExhaustedFailure(found[j])
  }

  lemma ProgressLater(found: Rows, seen: Rows, last: Time, now: Time, lease: Time, locked: set<JobId>)
    requires LoopProgress(found, seen, last, lease, locked) && last <= now
    ensures LoopProgress(found, seen, now, lease, locked)
  {
  }

  lemma ProgressByFailing(found: Rows, seen: Rows, j: JobId, now: Time, lease: Time, locked: set<JobId>)
    requires LoopProgress(found, seen, now, lease, locked)
    requires j in Candidates(seen, now, lease, locked) && Exhausted(seen[j])
    ensures LoopProgress(found, seen[j := ExhaustedFailure(seen[j])], now, lease, locked)
  {
  }

  lemma NothingLeft(found: Rows, seen: Rows, now: Time, lease: Time, locked: set<JobId>, worker: string)
    requires LoopProgress(found, seen, now, lease, locked)
    requires Candidates(seen, now, lease, locked) == {}
    ensures MovingClaimOutcome(found, now, lease, locked, worker, seen, None)
  {
    forall j | j in Candidates(found, now, lease, locked) ensures seen[j] != found[j] {
      assert j !in Candidates(seen, now, lease, locked);
    }
  }

  lemma ClaimsFirstUsable(found: Rows, seen: Rows, r: JobId, now: Time, lease: Time, locked: set<JobId>, worker: string)
    requires LoopProgress(found, seen, now, lease, locked)
    requires IsFirst(seen, r, Candidates(seen, now, lease, locked)) && !Exhausted(seen[r])
    ensures MovingClaimOutcome(found, now, lease, locked, worker, seen[r := Claimed(seen[r], now, worker)], Some(r))
  {
    var ids := Candidates(found, now, lease, locked);
    var seenIds := Candidates(seen, now, lease, locked);
    assert seen[r] == found[r];
    assert forall j :: j in found ==> seen[j].createdAt == found[j].createdAt;
    forall j | j in ids && j != r ensures Before(found, r, j) || seen[j] != found[j] {
      assert seen[j] == found[j] ==> j in seenIds;
    }
    assert forall j :: j in ids && Before(found, j, r) ==> !Before(found, r, j) && j != r;
  }

  /** Every row failed so far was the first candidate as soon as it was claimable at all. */
  ghost predicate FailedFirst(found: Rows, seen: Rows, t0: Time, lease: Time, locked: set<JobId>) {
    seen.Keys == found.Keys &&
    forall a :: a in found && seen[a] != found[a] ==> FirstAt(found, a, ReadyAt(found[a], t0, lease), lease, locked)
  }

  lemma FailedIsFirst(found: Rows, seen: Rows, t0: Time, now: Time, lease: Time, locked: set<JobId>, j: JobId)
    requires LoopProgress(found, seen, now, lease, locked) && t0 <= now
    requires IsFirst(seen, j, Candidates(seen, now, lease, locked)) && Exhausted(seen[j])
    ensures FirstAt(found, j, ReadyAt(found[j], t0, lease), lease, locked)
  {
    var ready := ReadyAt(found[j], t0, lease);
    assert seen[j] == found[j];
    ReadyIsFirst(found[j], t0, now, lease);
    forall b | b in Candidates(found, ready, lease, locked) && !Exhausted(found[b]) ensures Before(found, j, b) {
      assert seen[b] == found[b];
      ClaimableLater(found[b], ready, now, lease);
      assert b in Candidates(seen, now, lease, locked);
    }
  }

  /** The outcome is one that a moving clock allows, and every row failed was the first candidate
      as soon as it was claimable. */
  ghost predicate Meets(found: Rows, t0: Time, last: Time, lease: Time, locked: set<JobId>, worker: string,
                        rows: Rows, handed: Option<JobId>)
  {
    && MovingClaimOutcome(found, last, lease, locked, worker, rows, handed)
    && forall a :: a in found && handed != Some(a) && rows[a] != found[a] ==>
         FirstAt(found, a, ReadyAt(found[a], t0, lease), lease, locked)
  }

  ghost predicate CallMeets(found: Rows, clock: Clock, t0: Time, lease: Time, locked: set<JobId>, worker: string, r: CallResult) {
    r.looks > 0 && Meets(found, t0, clock(r.looks - 1), lease, locked, worker, r.rows, r.handed)
  }

  lemma LastTurnMeets(found: Rows, seen: Rows, t0: Time, now: Time, lease: Time, locked: set<JobId>, worker: string)
    requires LoopProgress(found, seen, now, lease, locked) && FailedFirst(found, seen, t0, lease, locked)
    requires var next := SelectNext(seen, now, lease, locked); next.Some? ==> !Exhausted(seen[next.value])
    ensures match SelectNext(seen, now, lease, locked)
            case None => Meets(found, t0, now, lease, locked, worker, seen, None)
            case Some(j) => Meets(found, t0, now, lease, locked, worker, seen[j := Claimed(seen[j], now, worker)], Some(j))
  {
    match SelectNext(seen, now, lease, locked) {
      case None => NothingLeft(found, seen, now, lease, locked, worker);
      case Some(j) => ClaimsFirstUsable(found, seen, j, now, lease, locked, worker);
    }
  }

  lemma FailedFirstByFailing(found: Rows, seen: Rows, t0: Time, now: Time, lease: Time, locked: set<JobId>, j: JobId)
    requires LoopProgress(found, seen, now, lease, locked) && FailedFirst(found, seen, t0, lease, locked) && t0 <= now
    requires SelectNext(seen, now, lease, locked) == Some(j) && Exhausted(seen[j])
    ensures var failed := seen[j := ExhaustedFailure(seen[j])];
            LoopProgress(found, failed, now, lease, locked) && FailedFirst(found, failed, t0, lease, locked)
  {
    ProgressByFailing(found, seen, j, now, lease, locked);
    FailedIsFirst(found, seen, t0, now, lease, locked, j);
  }

  /** The table that the call finds on its last turn, which fails no row, and how often it has read
      the clock before that. */
  ghost function LastTurn(seen: Rows, clock: Clock, i: nat, lease: Time, locked: set<JobId>): (Rows, nat)
    decreases |Open(seen)|
  {
    var next := SelectNext(seen, clock(i), lease, locked);
    if next.Some? && Exhausted(seen[next.value]) then
      ClosingShrinks(seen, next.value);
      LastTurn(seen[next.value := ExhaustedFailure(seen[next.value])], clock, i + 1, lease, locked)
    else (seen, i)
  }

  lemma {:induction false} LoopGoesToLastTurn(seen: Rows, clock: Clock, i: nat, lease: Time, locked: set<JobId>, worker: string)
    ensures var (end, k) := LastTurn(seen, clock, i, lease, locked);
            && LoopFrom(seen, clock, i, lease, locked, worker) == LoopFrom(end, clock, k, lease, locked, worker)
            && LastTurn(end, clock, k, lease, locked) == (end, k)
    decreases |Open(seen)|
  {
    var next := SelectNext(seen, clock(i), lease, locked);
    if next.Some? && Exhausted(seen[next.value]) {
      ClosingShrinks(seen, next.value);
      LoopGoesToLastTurn(seen[next.value := ExhaustedFailure(seen[next.value])], clock, i + 1, lease, locked, worker);
    }
  }

  /** On the way to its last turn the loop fails one exhausted first candidate after the other. */
  lemma {:induction false} LastTurnIsReached(found: Rows, seen: Rows, clock: Clock, i: nat, t0: Time, last: Time,
                                             lease: Time, locked: set<JobId>)
    requires NonDecreasing(clock) && t0 <= last <= clock(i)
    requires LoopProgress(found, seen, last, lease, locked) && FailedFirst(found, seen, t0, lease, locked)
    ensures var (end, k) := LastTurn(seen, clock, i, lease, locked);
            LoopProgress(found, end, clock(k), lease, locked) && FailedFirst(found, end, t0, lease, locked)
    decreases |Open(seen)|
  {
    var next := SelectNext(seen, clock(i), lease, locked);
    ProgressLater(found, seen, last, clock(i), lease, locked);
    if next.Some? && Exhausted(seen[next.value]) {
      var failed := ProgressByTurn(found, seen, t0, clock(i), lease, locked, next.value);
      assert clock(i) <= clock(i + 1);
      LastTurnIsReached(found, failed, clock, i + 1, t0, clock(i), lease, locked);
    }
  }

  lemma ProgressByTurn(found: Rows, seen: Rows, t0: Time, now: Time, lease: Time, locked: set<JobId>, j: JobId) returns (failed: Rows)
    requires LoopProgress(found, seen, now, lease, locked) && FailedFirst(found, seen, t0, lease, locked) && t0 <= now
    requires SelectNext(seen, now, lease, locked) == Some(j) && Exhausted(seen[j])
    ensures failed == seen[j := ExhaustedFailure(seen[j])] && |Open(failed)| < |Open(seen)|
    ensures LoopProgress(found, failed, now, lease, locked) && FailedFirst(found, failed, t0, lease, locked)
  {
    failed := seen[j := ExhaustedFailure(seen[j])];
    ClosingShrinks(seen, j);
    FailedFirstByFailing(found, seen, t0, now, lease, locked, j);
  }

  lemma LoopEndsAtLastTurn(end: Rows, clock: Clock, k: nat, lease: Time, locked: set<JobId>, worker: string)
    requires LastTurn(end, clock, k, lease, locked) == (end, k)
    ensures match SelectNext(end, clock(k), lease, locked)
            case None => LoopFrom(end, clock, k, lease, locked, worker) == CallResult(end, None, k + 1)
            case Some(j) =>
              && !Exhausted(end[j])
              && LoopFrom(end, clock, k, lease, locked, worker)
                 == CallResult(end[j := Claimed(end[j], clock(k), worker)], Some(j), k + 1)
  {
    var next := SelectNext(end, clock(k), lease, locked);
    if next.Some? && Exhausted(end[next.value]) {
      ClosingShrinks(end, next.value);
      LastTurnIsLater(end[next.value := ExhaustedFailure(end[next.value])], clock, k + 1, lease, locked);
    }
  }

  lemma {:induction false} LastTurnIsLater(seen: Rows, clock: Clock, i: nat, lease: Time, locked: set<JobId>)
    ensures LastTurn(seen, clock, i, lease, locked).1 >= i
    decreases |Open(seen)|
  {
    var next := SelectNext(seen, clock(i), lease, locked);
    if next.Some? && Exhausted(seen[next.value]) {
      ClosingShrinks(seen, next.value);
      LastTurnIsLater(seen[next.value := ExhaustedFailure(seen[next.value])], clock, i + 1, lease, locked);
    }
  }

  lemma LastTurnCallMeets(found: Rows, end: Rows, clock: Clock, k: nat, t0: Time, lease: Time, locked: set<JobId>, worker: string)
    requires LastTurn(end, clock, k, lease, locked) == (end, k)
    requires LoopProgress(found, end, clock(k), lease, locked) && FailedFirst(found, end, t0, lease, locked)
    ensures CallMeets(found, clock, t0, lease, locked, worker, LoopFrom(end, clock, k, lease, locked, worker))
  {
    LoopEndsAtLastTurn(end, clock, k, lease, locked, worker);
    LastTurnMeets(found, end, t0, clock(k), lease, locked, worker);
  }

  /** What a call comes to, from any state of its loop. */
  lemma LoopFacts(found: Rows, seen: Rows, clock: Clock, i: nat, t0: Time, last: Time,
                  lease: Time, locked: set<JobId>, worker: string)
    requires NonDecreasing(clock) && t0 <= last <= clock(i)
    requires LoopProgress(found, seen, last, lease, locked) && FailedFirst(found, seen, t0, lease, locked)
    ensures CallMeets(found, clock, t0, lease, locked, worker, LoopFrom(seen, clock, i, lease, locked, worker))
  {
    var (end, k) := LastTurn(seen, clock, i, lease, locked);
    LoopGoesToLastTurn(seen, clock, i, lease, locked, worker);
    LastTurnIsReached(found, seen, clock, i, t0, last, lease, locked);
    LastTurnCallMeets(found, end, clock, k, t0, lease, locked, worker);
  }

  lemma CallFacts(rows: Rows, clock: Clock, lease: Time, locked: set<JobId>, worker: string)
    requires NonDecreasing(clock)
    ensures CallMeets(rows, clock, clock(0), lease, locked, worker, LoopFrom(rows, clock, 0, lease, locked, worker))
  {
    LoopFacts(rows, rows, clock, 0, clock(0), clock(0), lease, locked, worker);
  }

  // -------------------------------------------------------------- exactness

  lemma BeforeIsTotal(rows: Rows, a: JobId, b: JobId)
    requires a in rows && b in rows && a != b
    ensures Before(rows, a, b) <==> !Before(rows, b, a)
  {
    assert a.uuid != b.uuid;
  }

  /** For any one call: its outcome is exact if and only if every row it failed comes before the
      row it hands out. */
  lemma ExactIffAllBefore(rows: Rows, last: Time, lease: Time, locked: set<JobId>, worker: string,
                          rows': Rows, handed: Option<JobId>)
    requires MovingClaimOutcome(rows, last, lease, locked, worker, rows', handed)
    ensures ClaimOutcome(rows, last, lease, locked, worker, rows', handed) <==>
            (handed.Some? ==> forall a :: a in rows && a != handed.value && rows'[a] != rows[a] ==> Before(rows, a, handed.value))
  {
    if handed.Some? {
      var r := handed.value;
      forall a | a in rows && a != r ensures Before(rows, a, r) <==> !Before(rows, r, a) {
        BeforeIsTotal(rows, a, r);
      }
    }
  }

  /** At a table that cannot overshoot, every clock gives an exact call. */
  lemma NeverOvershoots(rows: Rows, clock: Clock, lease: Time, locked: set<JobId>, worker: string)
    requires NonDecreasing(clock) && !CanOvershoot(rows, clock(0), lease, locked)
    ensures Exact(rows, clock, lease, locked, worker)
  {
    var next := SelectNext(rows, clock(0), lease, locked);
    if next.Some? && Exhausted(rows[next.value]) {
      assert FirstAt(rows, next.value, clock(0), lease, locked);
      var r := LoopFrom(rows, clock, 0, lease, locked, worker);
      CallFacts(rows, clock, lease, locked, worker);
      NoneOvertaken(rows, clock(0), clock(r.looks - 1), lease, locked, worker, r.rows, r.handed);
    } else {
      OutcomeAtOnce(rows, clock(0), lease, locked, worker);
    }
  }

  /** Without a row that can overtake another, an outcome that a moving clock allows is exact. */
  lemma NoneOvertaken(rows: Rows, t0: Time, last: Time, lease: Time, locked: set<JobId>, worker: string,
                      rows': Rows, handed: Option<JobId>)
    requires Meets(rows, t0, last, lease, locked, worker, rows', handed)
    requires forall a, b :: !Overtakes(rows, a, b, t0, lease, locked)
    ensures ClaimOutcome(rows, last, lease, locked, worker, rows', handed)
  {
    if handed.Some? {
      forall a | a in rows && a != handed.value && rows'[a] != rows[a] ensures Before(rows, a, handed.value) {
        BeforeIsTotal(rows, a, handed.value);
        assert !Overtakes(rows, a, handed.value, t0, lease, locked);
      }
    }
    ExactIffAllBefore(rows, last, lease, locked, worker, rows', handed);
  }

  /** The turns at time `t` until row `a` has been failed, and the table then. */
  ghost function TurnsUntil(seen: Rows, a: JobId, t: Time, lease: Time, locked: set<JobId>): (nat, Rows)
    requires a in seen
    decreases |Open(seen)|
  {
    var next := SelectNext(seen, t, lease, locked);
    if Terminal(seen[a]) || next.None? || !Exhausted(seen[next.value]) then (0, seen)
    else
      ClosingShrinks(seen, next.value);
      var (n, after) := TurnsUntil(seen[next.value := ExhaustedFailure(seen[next.value])], a, t, lease, locked);
      (n + 1, after)
  }

  lemma {:induction false} TurnsAreTaken(seen: Rows, a: JobId, t: Time, clock: Clock, i: nat,
                                         lease: Time, locked: set<JobId>, worker: string)
    requires a in seen
    requires forall k :: i <= k < i + TurnsUntil(seen, a, t, lease, locked).0 ==> clock(k) == t
    ensures var (n, after) := TurnsUntil(seen, a, t, lease, locked);
            LoopFrom(seen, clock, i, lease, locked, worker) == LoopFrom(after, clock, i + n, lease, locked, worker)
    decreases |Open(seen)|
  {
    var next := SelectNext(seen, t, lease, locked);
    if !Terminal(seen[a]) && next.Some? && Exhausted(seen[next.value]) {
      ClosingShrinks(seen, next.value);
      assert clock(i) == t;
      TurnsAreTaken(seen[next.value := ExhaustedFailure(seen[next.value])], a, t, clock, i + 1, lease, locked, worker);
    }
  }

  /** While a row that is first is not failed, the next candidate is exhausted. */
  lemma {:induction false} TurnsFail(found: Rows, seen: Rows, a: JobId, t0: Time, t: Time, lease: Time, locked: set<JobId>)
    requires LoopProgress(found, seen, t, lease, locked) && FailedFirst(found, seen, t0, lease, locked) && t0 <= t
    requires a in found && FirstAt(found, a, t, lease, locked)
    ensures var after := TurnsUntil(seen, a, t, lease, locked).1;
            && LoopProgress(found, after, t, lease, locked) && FailedFirst(found, after, t0, lease, locked)
            && Terminal(after[a])
    decreases |Open(seen)|
  {
    if !Terminal(seen[a]) {
      var next := SelectNext(seen, t, lease, locked);
      NextIsExhausted(found, seen, a, t, lease, locked);
      var j := next.value;
      ClosingShrinks(seen, j);
      ProgressByFailing(found, seen, j, t, lease, locked);
      FailedIsFirst(found, seen, t0, t, lease, locked, j);
      TurnsFail(found, seen[j := ExhaustedFailure(seen[j])], a, t0, t, lease, locked);
    }
  }

  lemma NextIsExhausted(found: Rows, seen: Rows, a: JobId, t: Time, lease: Time, locked: set<JobId>)
    requires LoopProgress(found, seen, t, lease, locked)
    requires FirstAt(found, a, t, lease, locked) && !Terminal(seen[a])
    ensures SelectNext(seen, t, lease, locked).Some? && Exhausted(seen[SelectNext(seen, t, lease, locked).value])
  {
    assert seen[a] == found[a] && a in Candidates(seen, t, lease, locked);
    var j := SelectNext(seen, t, lease, locked).value;
    assert seen[j] == found[j] && j in Candidates(found, t, lease, locked);
    assert j == a || Before(seen, j, a);
  }

  lemma {:induction false} EndedRowStays(seen: Rows, clock: Clock, i: nat, lease: Time, locked: set<JobId>, worker: string, a: JobId)
    requires a in seen && Terminal(seen[a])
    ensures var r := LoopFrom(seen, clock, i, lease, locked, worker); a in r.rows && r.rows[a] == seen[a]
    decreases |Open(seen)|
  {
    var next := SelectNext(seen, clock(i), lease, locked);
    if next.Some? && Exhausted(seen[next.value]) {
      ClosingShrinks(seen, next.value);
      EndedRowStays(seen[next.value := ExhaustedFailure(seen[next.value])], clock, i + 1, lease, locked, worker, a);
    }
  }

  /** Once `a` has been failed, a later read at which `b` is claimable makes the call not exact. */
  lemma TooLate(found: Rows, seen: Rows, a: JobId, b: JobId, clock: Clock, i: nat, t0: Time, last: Time,
                lease: Time, locked: set<JobId>, worker: string)
    requires NonDecreasing(clock) && t0 <= last <= clock(i) && forall k :: i <= k ==> clock(k) == clock(i)
    requires LoopProgress(found, seen, last, lease, locked) && FailedFirst(found, seen, t0, lease, locked)
    requires a in found && b in found && !Terminal(found[a]) && Terminal(seen[a]) && Before(found, b, a)
    requires b in Candidates(found, clock(i), lease, locked) && !Exhausted(found[b])
    ensures var r := LoopFrom(seen, clock, i, lease, locked, worker);
            !ClaimOutcome(found, clock(r.looks - 1), lease, locked, worker, r.rows, r.handed)
  {
    LoopFacts(found, seen, clock, i, t0, last, lease, locked, worker);
    EndedRowStays(seen, clock, i, lease, locked, worker, a);
    var r := LoopFrom(seen, clock, i, lease, locked, worker);
    assert clock(r.looks - 1) == clock(i);
    assert r.handed.Some?;
    NotBefore(found, a, b, r.handed.value, clock(i), lease, locked);
    ExactIffAllBefore(found, clock(i), lease, locked, worker, r.rows, r.handed);
  }

  lemma NotBefore(rows: Rows, a: JobId, b: JobId, r: JobId, t: Time, lease: Time, locked: set<JobId>)
    requires a in rows && b in Candidates(rows, t, lease, locked) && !Exhausted(rows[b]) && Before(rows, b, a)
    requires IsFirst(rows, r, set j | j in Candidates(rows, t, lease, locked) && !Exhausted(rows[j]))
    ensures r != a && !Before(rows, a, r)
  {
    assert r == b || Before(rows, r, b);
  }

  /** The clock that makes a call overshoot: it reads `t0` first, stands at `t` until row `a` has
      been failed, and then at `t'`. */
  function Overshooting(t0: Time, n: nat, t: Time, t': Time): Clock {
    k => if k == 0 then t0 else if k <= n then t else t'
  }

  lemma OvershootingMoves(t0: Time, n: nat, t: Time, t': Time)
    requires t0 <= t <= t'
    ensures NonDecreasing(Overshooting(t0, n, t, t')) && Overshooting(t0, n, t, t')(0) == t0
    ensures forall k :: 1 <= k <= n ==> Overshooting(t0, n, t, t')(k) == t
    ensures forall k :: n < k ==> Overshooting(t0, n, t, t')(k) == t'
  {
  }

  /** At a table that can overshoot, some clock makes the call fail a row too many. */
  lemma SomeClockOvershoots(rows: Rows, t0: Time, lease: Time, locked: set<JobId>, worker: string) returns (clock: Clock)
    requires CanOvershoot(rows, t0, lease, locked)
    ensures NonDecreasing(clock) && clock(0) == t0 && !Exact(rows, clock, lease, locked, worker)
  {
    var a, b :| Overtakes(rows, a, b, t0, lease, locked);
    var t := ReadyAt(rows[a], t0, lease);
    ReadyIsFirst(rows[a], t0, t, lease);
    var f := FirstFails(rows, t0, lease, locked);
    var seen := rows[f := ExhaustedFailure(rows[f])];
    ProgressLater(rows, seen, t0, t, lease, locked);
    clock := OvershootFrom(rows, seen, a, b, t0, t, lease, locked, worker);
    assert LoopFrom(rows, clock, 0, lease, locked, worker) == LoopFrom(seen, clock, 1, lease, locked, worker);
  }

  /** The rest of such a call, after its first turn. */
  lemma OvershootFrom(rows: Rows, seen: Rows, a: JobId, b: JobId, t0: Time, t: Time,
                      lease: Time, locked: set<JobId>, worker: string) returns (clock: Clock)
    requires Overtakes(rows, a, b, t0, lease, locked) && t == ReadyAt(rows[a], t0, lease) && t0 <= t
    requires LoopProgress(rows, seen, t, lease, locked) && FailedFirst(rows, seen, t0, lease, locked)
    ensures NonDecreasing(clock) && clock(0) == t0
    ensures var r := LoopFrom(seen, clock, 1, lease, locked, worker);
            !ClaimOutcome(rows, clock(r.looks - 1), lease, locked, worker, r.rows, r.handed)
  {
    var t' := ReadyAt(rows[b], t, lease);
    ReadyIsFirst(rows[b], t, t, lease);
    TurnsFail(rows, seen, a, t0, t, lease, locked);
    var (n, after) := TurnsUntil(seen, a, t, lease, locked);
    clock := Overshooting(t0, n, t, t');
    OvershootingMoves(t0, n, t, t');
    TurnsAreTaken(seen, a, t, clock, 1, lease, locked, worker);
    assert clock(n + 1) == t' && b in Candidates(rows, t', lease, locked);
    TooLate(rows, after, a, b, clock, n + 1, t0, t, lease, locked, worker);
  }

  /** The first turn at `t0` fails a row. */
  lemma FirstFails(rows: Rows, t0: Time, lease: Time, locked: set<JobId>) returns (f: JobId)
    requires exists a :: FirstAt(rows, a, t0, lease, locked)
    ensures SelectNext(rows, t0, lease, locked) == Some(f) && Exhausted(rows[f])
    ensures var seen := rows[f := ExhaustedFailure(rows[f])];
            LoopProgress(rows, seen, t0, lease, locked) && FailedFirst(rows, seen, t0, lease, locked)
  {
    var a :| FirstAt(rows, a, t0, lease, locked);
    NextIsExhausted(rows, rows, a, t0, lease, locked);
    f := SelectNext(rows, t0, lease, locked).value;
    ProgressByFailing(rows, rows, f, t0, lease, locked);
    FailedIsFirst(rows, rows, t0, t0, lease, locked, f);
  }

  /** Exactly when a moving clock does no harm, on the table before the call: every clock that
      starts at `t0` gives an exact call if and only if the table cannot overshoot. */
  lemma ExactIffCannotOvershoot(rows: Rows, t0: Time, lease: Time, locked: set<JobId>, worker: string)
    ensures (forall clock: Clock :: NonDecreasing(clock) && clock(0) == t0 ==> Exact(rows, clock, lease, locked, worker))
            <==> !CanOvershoot(rows, t0, lease, locked)
  {
    if CanOvershoot(rows, t0, lease, locked) {
      var clock := SomeClockOvershoots(rows, t0, lease, locked, worker);
    } else {
      forall clock: Clock | NonDecreasing(clock) && clock(0) == t0 ensures Exact(rows, clock, lease, locked, worker) {
        NeverOvershoots(rows, clock, lease, locked, worker);
      }
    }
  }

  /** A clock that stands still gives the call of the fixed clock. */
  lemma {:induction false} StandingClock(rows: Rows, clock: Clock, i: nat, lease: Time, locked: set<JobId>, worker: string)
    requires forall n :: clock(n) == clock(0)
    ensures var r := LoopFrom(rows, clock, i, lease, locked, worker);
            (r.rows, r.handed) == ClaimCall(rows, clock(0), lease, locked, worker)
    decreases |Open(rows)|
  {
    var next := SelectNext(rows, clock(0), lease, locked);
    assert clock(i) == clock(0);
    if next.Some? && Exhausted(rows[next.value]) {
      ClosingShrinks(rows, next.value);
      StandingClock(rows[next.value := ExhaustedFailure(rows[next.value])], clock, i + 1, lease, locked, worker);
    }
  }

  /** What a call comes to: always the outcome that a moving clock allows, and the exact one if
      the table cannot overshoot or the clock stands still. */
  ghost predicate Outcomes(rows: Rows, clock: Clock, lease: Time, locked: set<JobId>, worker: string, r: CallResult) {
    && r.looks > 0
    && MovingClaimOutcome(rows, clock(r.looks - 1), lease, locked, worker, r.rows, r.handed)
    && (!CanOvershoot(rows, clock(0), lease, locked) ==>
          ClaimOutcome(rows, clock(r.looks - 1), lease, locked, worker, r.rows, r.handed))
    && ((forall n :: clock(n) == clock(0)) ==> ClaimOutcome(rows, clock(0), lease, locked, worker, r.rows, r.handed))
  }

  lemma CallMeetsOutcomes(rows: Rows, clock: Clock, lease: Time, locked: set<JobId>, worker: string)
    requires NonDecreasing(clock)
    ensures Outcomes(rows, clock, lease, locked, worker, LoopFrom(rows, clock, 0, lease, locked, worker))
  {
    CallFacts(rows, clock, lease, locked, worker);
    if !CanOvershoot(rows, clock(0), lease, locked) {
      NeverOvershoots(rows, clock, lease, locked, worker);
    }
    if forall n :: clock(n) == clock(0) {
      StandingClock(rows, clock, 0, lease, locked, worker);
      ClaimCallMeetsOutcome(rows, clock(0), lease, locked, worker);
    }
  }

  // ---------------------------------------------------------------- an input

  const OLDER := JobId(1)
  const NEWER := JobId(2)

  /** Two expired or expiring rows: the newer one has used up its attempts and expires first. */
  function TwoRows(): Rows {
    var row := NewPending("t", "s", "b", "k", 1, 2.0).(status := Processing, lockedBy := Some("w"), attempts := 1);
    map[NEWER := row.(heartbeatAt := Some(0.0)),
        OLDER := row.(createdAt := 1.0, maxAttempts := 3, heartbeatAt := Some(5.0))]
  }

  function TenThenFifteen(): Clock { k => if k == 0 then 10.0 else 15.0 }

  /** A call that overshoots: with a lease of 10 seconds, a first read at 10 fails the newer row,
      and a second one at 15 hands out the older row. One pass at 15 would have left the newer one. */
  lemma CallThatOvershoots(worker: string)
    ensures var rows := TwoRows();
            && CanOvershoot(rows, 10.0, 10.0, {})
            && NonDecreasing(TenThenFifteen())
            && LoopFrom(rows, TenThenFifteen(), 0, 10.0, {}, worker) ==
               CallResult(rows[NEWER := ExhaustedFailure(rows[NEWER])][OLDER := Claimed(rows[OLDER], 15.0, worker)], Some(OLDER), 2)
            && !Exact(rows, TenThenFifteen(), 10.0, {}, worker)
  {
    var rows, clock := TwoRows(), TenThenFifteen();
    assert Candidates(rows, 10.0, 10.0, {}) == {NEWER};
    assert FirstAt(rows, NEWER, 10.0, 10.0, {}) && Overtakes(rows, NEWER, OLDER, 10.0, 10.0, {});
    var seen := rows[NEWER := ExhaustedFailure(rows[NEWER])];
    assert Candidates(seen, 15.0, 10.0, {}) == {OLDER};
    assert LoopFrom(rows, clock, 0, 10.0, {}, worker) == LoopFrom(seen, clock, 1, 10.0, {}, worker);
    var r := LoopFrom(rows, clock, 0, 10.0, {}, worker);
    assert r.rows[NEWER] != rows[NEWER] && Before(rows, OLDER, NEWER);
  }
}
