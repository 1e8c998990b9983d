/** Leases and time: when a row can be selected, the heartbeat interval, and why an
    owner that keeps beating never loses its job. */
module LeaseTiming {
  import opened Sequences
  import opened IngestJobs
  import opened LeaseProtocol

  function Min(a: Time, b: Time): Time { if a <= b then a else b }

  function Max(a: Time, b: Time): Time { if a <= b then b else a }

  function HeartbeatInterval(lease: Time): Time { Max(0.1, Min(lease / 3.0, 60.0)) }

  /** The interval is below the lease exactly for leases above 0.1 seconds, and at most a
      third of it exactly from 0.3 seconds on. */
  lemma IntervalBounds(lease: Time)
    requires lease > 0.0
    ensures HeartbeatInterval(lease) < lease <==> lease > 0.1
    ensures HeartbeatInterval(lease) <= lease / 3.0 <==> lease >= 0.3
    ensures 0.1 <= HeartbeatInterval(lease) <= 60.0
  {
  }

  /** The row of a current claim can be selected by a claim call exactly when no other
      transaction locks it and its last heartbeat is at least one whole lease old. */
  lemma SelectableIffExpired(s: State, lease: Time, locked: set<JobId>, t: Token)
    requires Fenced(s) && t in s.held && Current(s, t)
    ensures var j := s.held[t].claim.id;
            j in Candidates(s.rows, s.clock, lease, locked) <==> j !in locked && s.clock - s.held[t].beat >= lease
  {
  }

  /** A run in which the owner of `t` keeps its side: at every claim call the time and that
      of its last heartbeat (first, `last`) are `safe`; it does not end or crash; and the
      API leaves row `j` alone. */
  predicate KeepsBeating(steps: seq<Step>, clock: Time, last: Time, safe: (Time, Time) -> bool, t: Token, j: JobId)
    decreases steps
  {
    steps == [] ||
    match steps[0]
    case ClaimNext(_) => safe(clock, last) && KeepsBeating(steps[1..], clock, last, safe, t, j)
    case Heartbeat(u) => KeepsBeating(steps[1..], clock, if u == t then clock else last, safe, t, j)
    case Succeed(u) => u != t && KeepsBeating(steps[1..], clock, last, safe, t, j)
    case Fail(u, _) => u != t && KeepsBeating(steps[1..], clock, last, safe, t, j)
    case Crash(u) => u != t && KeepsBeating(steps[1..], clock, last, safe, t, j)
    case Tick(elapsed) => KeepsBeating(steps[1..], clock + elapsed, last, safe, t, j)
    case ApiCreate(_, _, _, _, _, _) => KeepsBeating(steps[1..], clock, last, safe, t, j)
    case ApiReset(k, _, _, _) => k != j && KeepsBeating(steps[1..], clock, last, safe, t, j)
    case ApiTake(k) => k != j && KeepsBeating(steps[1..], clock, last, safe, t, j)
    case ApiSucceed(k) => k != j && KeepsBeating(steps[1..], clock, last, safe, t, j)
    case ApiFail(k, _) => k != j && KeepsBeating(steps[1..], clock, last, safe, t, j)
  }

  lemma HeldThroughStep(s: State, lease: Time, step: Step, t: Token, safe: (Time, Time) -> bool)
    requires Fenced(s) && Legal(s, lease, step) && Disciplined(s, step) && t in s.held && Current(s, t)
    requires forall now, last :: safe(now, last) ==> now - last < lease
    requires KeepsBeating([step], s.clock, s.held[t].beat, safe, t, s.held[t].claim.id)
    ensures var s' := Next(s, lease, step);
            && t in s'.held && s'.held[t].claim == s.held[t].claim && Current(s', t)
            && s'.held[t].beat == (if step == Heartbeat(t) then s.clock else s.held[t].beat)
            && s'.clock == (if step.Tick? then s.clock + step.elapsed else s.clock)
  {
    if step.ClaimNext? {
      HeldThroughClaim(s, lease, step.call, t);
    }
  }

  lemma HeldThroughClaim(s: State, lease: Time, c: Call, t: Token)
    requires Fenced(s) && Answers(s, lease, c) && t in s.held && Current(s, t)
    requires s.clock - s.held[t].beat < lease
    ensures var s' := AfterClaim(s, c);
            t in s'.held && s'.held[t] == s.held[t] && Current(s', t) && s'.clock == s.clock
  {
    FreshRowUntouched(s, lease, c, t);
    ClaimEpochs(s, lease, c);
    HandedOut(s, lease, c);
  }

  lemma FreshRowUntouched(s: State, lease: Time, c: Call, t: Token)
    requires Fenced(s) && Answers(s, lease, c) && t in s.held && Current(s, t)
    requires s.clock - s.held[t].beat < lease
    ensures s.held[t].claim.id in c.rows && c.rows[s.held[t].claim.id] == s.rows[s.held[t].claim.id]
  {
    assert !Claimable(s.rows[s.held[t].claim.id], c.at, lease);
    ClaimFacts(s, lease, c);
  }

  /** An owner whose last heartbeat is younger than the lease at every claim call never loses
      its job: after any interleaving with other workers and with the API on other rows, its
      claim still passes the lease check, so each of its heartbeats succeeded. */
  lemma {:induction false} OwnerKeepsJob(s: State, lease: Time, steps: seq<Step>, t: Token, safe: (Time, Time) -> bool)
    requires Fenced(s) && LegalRun(s, lease, steps) && t in s.held && Current(s, t)
    requires forall now, last :: safe(now, last) ==> now - last < lease
    requires KeepsBeating(steps, s.clock, s.held[t].beat, safe, t, s.held[t].claim.id)
    ensures var s' := Run(s, lease, steps);
            t in s'.held && s'.held[t].claim == s.held[t].claim && Current(s', t) && Passes(s'.rows, s'.held[t].claim)
    decreases steps
  {
    if steps != [] {
      var step := steps[0];
      assert [step][1..] == [];
      HeldThroughStep(s, lease, step, t, safe);
      FencedStep(s, lease, step);
      OwnerKeepsJob(Next(s, lease, step), lease, steps[1..], t, safe);
    }
  }

  // ------------------------------------------------ the heartbeat loop in time

  /** The heartbeat loop from a claim at `times[0]`: each attempt follows the previous one
      by the interval and some further delay; `ok[k]` says that attempt `k` went through.
      The claim itself counts as the first one. */
  ghost predicate BeatSchedule(times: seq<Time>, ok: seq<bool>, lease: Time) {
    && |times| == |ok| > 0 && ok[0]
    && forall k :: 0 <= k < |times| - 1 ==> times[k + 1] >= times[k] + HeartbeatInterval(lease)
  }

  function Delay(times: seq<Time>, k: nat, lease: Time): Time
    requires k < |times| - 1
  {
    times[k + 1] - times[k] - HeartbeatInterval(lease)
  }

  /** Never two missed attempts in a row, and the delays of any two successive attempts
      add up to less than a third of the lease. */
  ghost predicate AtMostOneMiss(times: seq<Time>, ok: seq<bool>, lease: Time)
    requires BeatSchedule(times, ok, lease)
  {
    && (forall k :: 0 <= k < |ok| - 1 ==> ok[k] || ok[k + 1])
    && (forall k :: 0 <= k < |times| - 1 ==> Delay(times, k, lease) < lease / 3.0)
    && (forall k :: 0 <= k < |times| - 2 ==> Delay(times, k, lease) + Delay(times, k + 1, lease) < lease / 3.0)
  }

  /** One missed beat plus a total delay under a third of the lease never lets the lease
      expire: up to the last attempt, some successful beat is always younger than it. */
  lemma OneMissIsSafe(times: seq<Time>, ok: seq<bool>, lease: Time, k: nat, now: Time)
    requires lease >= 0.3 && BeatSchedule(times, ok, lease) && AtMostOneMiss(times, ok, lease)
    requires k < |times| - 1 && times[k] <= now <= times[k + 1]
    ensures exists m :: 0 <= m <= k && ok[m] && now - times[m] < lease
  {
    IntervalBounds(lease);
    if ok[k] {
      assert now - times[k] <= HeartbeatInterval(lease) + Delay(times, k, lease) < lease;
    } else {
      assert ok[k - 1];
      assert Delay(times, k - 1, lease) + Delay(times, k - 1 + 1, lease) < lease / 3.0;
      assert now - times[k - 1] < lease;
    }
  }

  /** The heartbeats that a schedule lets through have been taken: the time falls between two
      attempts, and the last heartbeat is not older than any successful attempt before it. */
  ghost predicate OnSchedule(times: seq<Time>, ok: seq<bool>, now: Time, last: Time) {
    exists k :: 0 <= k < |times| - 1 && times[k] <= now <= times[k + 1] && BeatsTaken(times, ok, k, last)
  }

  ghost predicate BeatsTaken(times: seq<Time>, ok: seq<bool>, k: nat, last: Time) {
    forall m :: 0 <= m <= k && m < |times| && m < |ok| && ok[m] ==> times[m] <= last
  }

  /** The heartbeat loop keeps the job: an owner that follows a schedule with no two missed
      beats in a row and delays under a third of the lease still owns its row after any
      interleaving with other workers, and with the API on other rows. */
  lemma ScheduleKeepsJob(s: State, lease: Time, steps: seq<Step>, t: Token, times: seq<Time>, ok: seq<bool>)
    requires Fenced(s) && LegalRun(s, lease, steps) && t in s.held && Current(s, t)
    requires lease >= 0.3 && BeatSchedule(times, ok, lease) && AtMostOneMiss(times, ok, lease)
    requires KeepsBeating(steps, s.clock, s.held[t].beat, (now, last) => OnSchedule(times, ok, now, last), t, s.held[t].claim.id)
    ensures var s' := Run(s, lease, steps);
            t in s'.held && s'.held[t].claim == s.held[t].claim && Current(s', t) && Passes(s'.rows, s'.held[t].claim)
  {
    var safe := (now, last) => OnSchedule(times, ok, now, last);
    forall now, last | safe(now, last) ensures now - last < lease {
      var k :| 0 <= k < |times| - 1 && times[k] <= now <= times[k + 1] && BeatsTaken(times, ok, k, last);
      OneMissIsSafe(times, ok, lease, k, now);
    }
    OwnerKeepsJob(s, lease, steps, t, safe);
  }

  /** The owner of `t` misses the two beats after the last one: three intervals pass, with no
      delay, and it takes no heartbeat step. */
  function TwoMisses(lease: Time): seq<Step> {
    var beat := Tick(HeartbeatInterval(lease));
    [beat, beat, beat]
  }

  lemma AfterTwoMisses(s: State, lease: Time)
    requires lease > 0.0
    ensures Run(s, lease, TwoMisses(lease)) == s.(clock := s.clock + HeartbeatInterval(lease) * 3.0)
  {
    var beat := Tick(HeartbeatInterval(lease));
    RunThree(s, lease, beat, beat, beat);
  }

  /** When the third attempt is due after two missed beats, the row can be selected exactly
      for leases of at most 180 seconds. */
  lemma ExpiredAfterTwoMisses(s: State, lease: Time, t: Token)
    requires lease > 0.0 && Fenced(s) && t in s.held && Current(s, t) && s.held[t].beat == s.clock
    ensures var late, j := Run(s, lease, TwoMisses(lease)), s.held[t].claim.id;
            && late.rows == s.rows && late.held == s.held
            && (j in Candidates(late.rows, late.clock, lease, {}) <==> lease <= 180.0)
  {
    AfterTwoMisses(s, lease);
  }

  /** Two missed beats in a row lose the job, even with no delay at all, to the first worker
      whose claim call finds no other row free: in every state, and for every lease of at most
      180 seconds. */
  lemma TwoMissesLoseJob(s: State, lease: Time, t: Token, worker: string)
    requires 0.0 < lease <= 180.0 && Fenced(s) && t in s.held && Current(s, t) && s.held[t].beat == s.clock
    requires worker != API_SYNC && !Busy(s, worker)
    ensures var late := Run(s, lease, TwoMisses(lease));
            var step := ClaimNext(CallNow(late, lease, worker, s.rows.Keys - {s.held[t].claim.id}));
            && Legal(late, lease, step) && Disciplined(late, step)
            && Lost(Next(late, lease, step), t)
  {
    var late, j := Run(s, lease, TwoMisses(lease)), s.held[t].claim.id;
    var others := s.rows.Keys - {j};
    ExpiredAfterTwoMisses(s, lease, t);
    AfterTwoMisses(s, lease);
    LaterIsFenced(s, late);
    assert Candidates(late.rows, late.clock, lease, others) == {j};
    var c := CallNow(late, lease, worker, others);
    CallNowAnswers(late, lease, worker, others);
    assert c.rows[j] != late.rows[j] by {
      if c.result == Some(j) {
        ClaimChangesRow(late.rows[j], c.at, worker);
      }
    }
    ReclaimedIsLost(late, lease, c, t);
  }

  lemma LaterIsFenced(s: State, late: State)
    requires Fenced(s) && late == s.(clock := late.clock)
    ensures Fenced(late) && forall j :: Epoch(late, j) == Epoch(s, j)
  {
    assert forall j :: Epoch(late, j) == Epoch(s, j);
  }
}
