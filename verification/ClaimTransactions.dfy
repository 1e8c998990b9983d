/** Claim transactions that run at the same time as each other and as every other
    step of the lease protocol: each selects rows with `FOR UPDATE SKIP LOCKED`,
    keeps its writes to itself until it commits, and holds its row locks until then.
    Other writers wait for a locked row. What has been committed at any moment is
    what a run of the atomic protocol reaches. */
module ClaimTransactions {
  import opened Sequences
  import opened IngestJobs
  import P = LeaseProtocol

  type TxId = nat

  /** An open claim transaction: its row locks, its uncommitted writes, the row it has
      claimed, and the time of its last selection. */
  datatype Tx = Tx(worker: string, locked: set<JobId>, writes: Rows, claimed: Option<JobId>, time: Time)

  /** The committed state, the open claim transactions, and `handed`: when a row was last
      handed out or had a heartbeat, kept until the API writes to the row. */
  datatype State = State(core: P.State, txs: map<TxId, Tx>, handed: map<JobId, Time>)

  datatype Step =
    | Begin(tx: TxId, worker: string)
    | Iterate(tx: TxId)
    | Commit(tx: TxId)
    | Abort(tx: TxId)
    | Other(step: P.Step)

  /** The rows locked by transactions other than `x`. */
  function LockedByOthers(s: State, x: TxId): set<JobId> {
    set y, j | y in s.txs && y != x && j in s.txs[y].locked :: j
  }

  function LockedByAny(s: State): set<JobId> {
    set y, j | y in s.txs && j in s.txs[y].locked :: j
  }

  /** What a transaction sees: the committed rows, with its own writes over them. */
  function View(s: State, x: TxId): Rows
    requires x in s.txs
  {
    s.core.rows + s.txs[x].writes
  }

  /** One turn of the claim loop: select and lock the first candidate that no other
      transaction has locked, then fail it or claim it. */
  function Iterated(s: State, lease: Time, x: TxId): Tx
    requires x in s.txs
  {
    var tx := s.txs[x];
    var view, now := View(s, x), s.core.clock;
    match SelectNext(view, now, lease, LockedByOthers(s, x))
    case None => tx.(time := now)
    case Some(j) =>
      if Exhausted(view[j]) then
        tx.(locked := tx.locked + {j}, writes := tx.writes[j := ExhaustedFailure(view[j])], time := now)
      else
        tx.(locked := tx.locked + {j}, writes := tx.writes[j := Claimed(view[j], now, tx.worker)],
            claimed := Some(j), time := now)
  }

  /** The row that a step of the protocol writes. */
  function Written(core: P.State, step: P.Step): Option<JobId> {
    match step
    case Heartbeat(t) => Owned(core, t)
    case Succeed(t) => Owned(core, t)
    case Fail(t, _) => Owned(core, t)
    case ApiCreate(j, _, _, _, _, _) => Some(j)
    case ApiReset(j, _, _, _) => Some(j)
    case ApiTake(j) => Some(j)
    case ApiSucceed(j) => Some(j)
    case ApiFail(j, _) => Some(j)
    case _ => None
  }

  /** The row of an outstanding claim that passes the lease check. */
  function Owned(core: P.State, t: P.Token): Option<JobId> {
    if t in core.held && Passes(core.rows, core.held[t].claim) then Some(core.held[t].claim.id) else None
  }

  ghost predicate Enabled(s: State, lease: Time, step: Step) {
    match step
    case Begin(x, worker) =>
      x !in s.txs && worker != API_SYNC && !P.Busy(s.core, worker) && forall y :: y in s.txs ==> s.txs[y].worker != worker
    case Iterate(x) => x in s.txs && s.txs[x].claimed.None?
    case Commit(x) => x in s.txs
    case Abort(x) => x in s.txs
    case Other(step) =>
      && !step.ClaimNext? && P.Legal(s.core, lease, step)
      && (Written(s.core, step).Some? ==> Written(s.core, step).value !in LockedByAny(s))
  }

  /** The claim call that a commit amounts to: it skipped the rows it did not lock. */
  function CallOf(s: State, x: TxId): P.Call
    requires x in s.txs
  {
    var tx := s.txs[x];
    P.Call(tx.worker, tx.time, s.core.rows.Keys - tx.locked, s.core.rows + tx.writes, tx.claimed)
  }

  /** What a step of the protocol does to the record of hand-outs and heartbeats. */
  function HandedAfter(s: State, step: P.Step): map<JobId, Time> {
    match Written(s.core, step)
    case None => s.handed
    case Some(j) =>
      if P.IsApiStep(step) then s.handed - {j}
      else if step.Heartbeat? && j in s.handed then s.handed[j := s.core.clock]
      else s.handed
  }

  function Next(s: State, lease: Time, step: Step): State {
    match step
    case Begin(x, worker) => s.(txs := s.txs[x := Tx(worker, {}, map[], None, s.core.clock)])
    case Iterate(x) => if x in s.txs then s.(txs := s.txs[x := Iterated(s, lease, x)]) else s
    case Commit(x) =>
      if x !in s.txs then s
      else
        var tx := s.txs[x];
        State(P.Next(s.core, lease, P.ClaimNext(CallOf(s, x))), s.txs - {x},
              if tx.claimed.Some? then s.handed[tx.claimed.value := tx.time] else s.handed)
    case Abort(x) => s.(txs := s.txs - {x})
    case Other(step) => s.(core := P.Next(s.core, lease, step), handed := HandedAfter(s, step))
  }

  // --------------------------------------------------------------- invariant

  ghost predicate Disjoint(s: State) {
    && (forall x, y, j :: x in s.txs && y in s.txs && j in s.txs[x].locked && j in s.txs[y].locked ==> x == y)
    && (forall x, y :: x in s.txs && y in s.txs && s.txs[x].worker == s.txs[y].worker ==> x == y)
  }

  /** A transaction's write of a row is an update of the row as it is committed now. */
  ghost predicate WriteFits(rows: Rows, lease: Time, tx: Tx, j: JobId)
    requires j in rows && j in tx.writes
  {
    && Claimable(rows[j], tx.time, lease)
    && (if tx.claimed == Some(j) then !Exhausted(rows[j]) && tx.writes[j] == Claimed(rows[j], tx.time, tx.worker)
        else Exhausted(rows[j]) && tx.writes[j] == ExhaustedFailure(rows[j]))
  }

  ghost predicate TxFits(core: P.State, lease: Time, tx: Tx) {
    && tx.writes.Keys == tx.locked <= core.rows.Keys
    && tx.time <= core.clock
    && (tx.claimed.Some? ==> tx.claimed.value in tx.locked)
    && tx.worker != API_SYNC && !P.Busy(core, tx.worker)
    && forall j :: j in tx.locked ==> WriteFits(core.rows, lease, tx, j)
  }

  /** A row handed out and not written by the API since is processing, with the heartbeat
      on record, or has ended. */
  ghost predicate HandedFit(s: State) {
    forall j :: j in s.handed ==>
      && j in s.core.rows
      && (Terminal(s.core.rows[j]) || (s.core.rows[j].status.Processing? && s.core.rows[j].heartbeatAt == Some(s.handed[j])))
  }

  ghost predicate Inv(s: State, lease: Time) {
    && Disjoint(s)
    && (forall x :: x in s.txs ==> TxFits(s.core, lease, s.txs[x]))
    && HandedFit(s)
  }

  lemma ViewRow(s: State, lease: Time, x: TxId, j: JobId)
    requires Inv(s, lease) && x in s.txs && s.txs[x].claimed.None?
    ensures j in View(s, x) <==> j in s.core.rows
    ensures j in s.txs[x].locked ==> j in s.core.rows && Terminal(View(s, x)[j])
    ensures j in s.core.rows && j !in s.txs[x].locked ==> View(s, x)[j] == s.core.rows[j]
    ensures j in LockedByAny(s) <==> j in LockedByOthers(s, x) || j in s.txs[x].locked
  {
    assert TxFits(s.core, lease, s.txs[x]);
    if j in s.txs[x].locked {
      assert WriteFits(s.core.rows, lease, s.txs[x], j);
    }
  }

  /** What a transaction can still select are exactly the committed claimable rows that
      no transaction has locked, itself included. */
  lemma SelectableRows(s: State, lease: Time, x: TxId)
    requires Inv(s, lease) && x in s.txs && s.txs[x].claimed.None?
    ensures Candidates(View(s, x), s.core.clock, lease, LockedByOthers(s, x)) ==
            Candidates(s.core.rows, s.core.clock, lease, LockedByAny(s))
    ensures forall j :: j in s.core.rows && j !in LockedByAny(s) ==> j in View(s, x) && View(s, x)[j] == s.core.rows[j]
  {
    forall j
      ensures j in Candidates(View(s, x), s.core.clock, lease, LockedByOthers(s, x)) <==>
              j in Candidates(s.core.rows, s.core.clock, lease, LockedByAny(s))
    {
      ViewRow(s, lease, x, j);
    }
    forall j | j in s.core.rows && j !in LockedByAny(s) ensures j in View(s, x) && View(s, x)[j] == s.core.rows[j] {
      ViewRow(s, lease, x, j);
    }
  }

  lemma FirstAgrees(a: Rows, b: Rows, j: JobId, ids: set<JobId>)
    requires ids <= a.Keys && ids <= b.Keys && IsFirst(a, j, ids)
    requires forall k :: k in ids ==> a[k] == b[k]
    ensures IsFirst(b, j, ids)
  {
  }

  lemma FirstOfFewer(rows: Rows, j: JobId, ids: set<JobId>, fewer: set<JobId>)
    requires ids <= rows.Keys && IsFirst(rows, j, ids) && j in fewer && fewer <= ids
    ensures IsFirst(rows, j, fewer)
  {
  }

  /** The row handed out is the first, by creation time and id, of the committed rows
      that are claimable, have an attempt left, and are locked by nobody. */
  lemma ClaimsFirstUnlocked(s: State, lease: Time, x: TxId)
    requires Inv(s, lease) && x in s.txs && s.txs[x].claimed.None?
    ensures var tx', free := Iterated(s, lease, x), Candidates(s.core.rows, s.core.clock, lease, LockedByAny(s));
            tx'.claimed.Some? ==>
              && IsFirst(s.core.rows, tx'.claimed.value, free)
              && IsFirst(s.core.rows, tx'.claimed.value, set j | j in free && !Exhausted(s.core.rows[j]))
  {
    SelectableRows(s, lease, x);
    var rows, free := s.core.rows, Candidates(s.core.rows, s.core.clock, lease, LockedByAny(s));
    var next := SelectNext(View(s, x), s.core.clock, lease, LockedByOthers(s, x));
    if next.Some? && !Exhausted(View(s, x)[next.value]) {
      FirstAgrees(View(s, x), rows, next.value, free);
      FirstOfFewer(rows, next.value, free, set j | j in free && !Exhausted(rows[j]));
    }
  }

  // ------------------------------------------------------- keeping the invariant

  /** A transaction of the same worker takes the place of `x`, with at most one more lock,
      on a row that nobody has locked. */
  lemma InvAfterLock(s: State, lease: Time, x: TxId, j: JobId, tx': Tx)
    requires Inv(s, lease) && x in s.txs && j !in LockedByAny(s)
    requires tx'.worker == s.txs[x].worker && tx'.locked <= s.txs[x].locked + {j}
    requires TxFits(s.core, lease, tx')
    ensures Inv(s.(txs := s.txs[x := tx']), lease)
  {
    var s' := s.(txs := s.txs[x := tx']);
    forall y | y in s'.txs ensures TxFits(s'.core, lease, s'.txs[y]) {
      assert y != x ==> TxFits(s.core, lease, s.txs[y]);
    }
    forall y, z, k | y in s'.txs && z in s'.txs && k in s'.txs[y].locked && k in s'.txs[z].locked ensures y == z {
      assert y != x ==> j !in s.txs[y].locked;
      assert z != x ==> j !in s.txs[z].locked;
    }
  }

  lemma InvAfterIterate(s: State, lease: Time, x: TxId)
    requires Inv(s, lease) && x in s.txs && s.txs[x].claimed.None?
    ensures Inv(s.(txs := s.txs[x := Iterated(s, lease, x)]), lease)
  {
    var next := SelectNext(View(s, x), s.core.clock, lease, LockedByOthers(s, x));
    if next.Some? {
      var j := next.value;
      SelectableRows(s, lease, x);
      assert j in Candidates(s.core.rows, s.core.clock, lease, LockedByAny(s));
      ViewRow(s, lease, x, j);
      IteratedFits(s, lease, x, j);
      InvAfterLock(s, lease, x, j, Iterated(s, lease, x));
    } else {
      IdleIterationFits(s, lease, x);
    }
  }

  lemma IdleIterationFits(s: State, lease: Time, x: TxId)
    requires Inv(s, lease) && x in s.txs && s.txs[x].claimed.None?
    ensures Inv(s.(txs := s.txs[x := s.txs[x].(time := s.core.clock)]), lease)
  {
    var tx := s.txs[x];
    var tx' := tx.(time := s.core.clock);
    assert TxFits(s.core, lease, tx);
    forall j | j in tx'.locked ensures WriteFits(s.core.rows, lease, tx', j) {
      assert WriteFits(s.core.rows, lease, tx, j);
    }
    var s' := s.(txs := s.txs[x := tx']);
    forall y | y in s'.txs ensures TxFits(s'.core, lease, s'.txs[y]) {
      assert y != x ==> TxFits(s.core, lease, s.txs[y]);
    }
  }

  lemma IteratedFits(s: State, lease: Time, x: TxId, j: JobId)
    requires Inv(s, lease) && x in s.txs && s.txs[x].claimed.None?
    requires SelectNext(View(s, x), s.core.clock, lease, LockedByOthers(s, x)) == Some(j)
    requires j in s.core.rows && j !in s.txs[x].locked && Claimable(s.core.rows[j], s.core.clock, lease)
    requires View(s, x)[j] == s.core.rows[j]
    ensures TxFits(s.core, lease, Iterated(s, lease, x))
    ensures Iterated(s, lease, x).locked == s.txs[x].locked + {j}
  {
    var row := s.core.rows[j];
    LockFits(s.core, lease, s.txs[x], Iterated(s, lease, x), j,
             if Exhausted(row) then ExhaustedFailure(row) else Claimed(row, s.core.clock, s.txs[x].worker));
  }

  lemma LockFits(core: P.State, lease: Time, tx: Tx, tx': Tx, j: JobId, write: Job)
    requires TxFits(core, lease, tx) && tx.claimed.None?
    requires j in core.rows && j !in tx.locked && Claimable(core.rows[j], core.clock, lease)
    requires write == if Exhausted(core.rows[j]) then ExhaustedFailure(core.rows[j]) else Claimed(core.rows[j], core.clock, tx.worker)
    requires tx' == Tx(tx.worker, tx.locked + {j}, tx.writes[j := write],
                       if Exhausted(core.rows[j]) then None else Some(j), core.clock)
    ensures TxFits(core, lease, tx')
  {
    forall k | k in tx'.locked ensures WriteFits(core.rows, lease, tx', k) {
      assert k != j ==> WriteFits(core.rows, lease, tx, k);
    }
  }

  /** A commit is a claim call that the atomic protocol allows. */
  lemma CommitIsClaim(s: State, lease: Time, x: TxId)
    requires Inv(s, lease) && x in s.txs
    ensures P.Legal(s.core, lease, P.ClaimNext(CallOf(s, x))) && P.Disciplined(s.core, P.ClaimNext(CallOf(s, x)))
  {
    var tx := s.txs[x];
    assert TxFits(s.core, lease, tx);
    FittingCall(s.core.rows, lease, tx);
  }

  /** Writes that fit are the outcome of a claim call that skips every other row. */
  lemma FittingCall(rows: Rows, lease: Time, tx: Tx)
    requires tx.writes.Keys == tx.locked <= rows.Keys && (tx.claimed.Some? ==> tx.claimed.value in tx.locked)
    requires forall j :: j in tx.locked ==> WriteFits(rows, lease, tx, j)
    ensures MovingClaimOutcome(rows, tx.time, lease, rows.Keys - tx.locked, tx.worker, rows + tx.writes, tx.claimed)
  {
    var ids, rows' := Candidates(rows, tx.time, lease, rows.Keys - tx.locked), rows + tx.writes;
    FittingCandidates(rows, lease, tx);
    forall j | j in tx.locked ensures WriteFits(rows, lease, tx, j) && rows'[j] == tx.writes[j] {
    }
    if tx.claimed.Some? {
      OnlyUsable(rows, ids, tx.claimed.value);
    }
  }

  lemma FittingCandidates(rows: Rows, lease: Time, tx: Tx)
    requires tx.writes.Keys == tx.locked <= rows.Keys
    requires forall j :: j in tx.locked ==> WriteFits(rows, lease, tx, j)
    ensures Candidates(rows, tx.time, lease, rows.Keys - tx.locked) == tx.locked
  {
    forall j ensures j in Candidates(rows, tx.time, lease, rows.Keys - tx.locked) <==> j in tx.locked {
      assert j in tx.locked ==> WriteFits(rows, lease, tx, j);
    }
  }

  lemma OnlyUsable(rows: Rows, ids: set<JobId>, r: JobId)
    requires ids <= rows.Keys && r in ids && forall j :: j in ids ==> (Exhausted(rows[j]) <==> j != r)
    ensures IsFirst(rows, r, set j | j in ids && !Exhausted(rows[j]))
  {
    assert (set j | j in ids && !Exhausted(rows[j])) == {r};
  }

  lemma CommittedCore(s: State, lease: Time, x: TxId)
    requires Inv(s, lease) && x in s.txs
    ensures var core' := P.Next(s.core, lease, P.ClaimNext(CallOf(s, x)));
            && core'.rows == s.core.rows + s.txs[x].writes && core'.rows.Keys == s.core.rows.Keys
            && core'.clock == s.core.clock
            && forall w :: P.Busy(core', w) ==> P.Busy(s.core, w) || w == s.txs[x].worker
  {
    CommitIsClaim(s, lease, x);
    P.ClaimEpochs(s.core, lease, CallOf(s, x));
    P.HandedOut(s.core, lease, CallOf(s, x));
  }

  lemma InvAfterCommit(s: State, lease: Time, x: TxId)
    requires Inv(s, lease) && x in s.txs
    ensures Inv(Next(s, lease, Commit(x)), lease)
  {
    var tx, s' := s.txs[x], Next(s, lease, Commit(x));
    assert TxFits(s.core, lease, tx);
    CommittedCore(s, lease, x);
    forall y | y in s'.txs ensures TxFits(s'.core, lease, s'.txs[y]) {
      OtherTxFits(s, lease, x, y);
    }
    HandedAfterCommit(s, lease, x);
  }

  lemma OtherTxFits(s: State, lease: Time, x: TxId, y: TxId)
    requires Inv(s, lease) && x in s.txs && y in s.txs && x != y
    ensures TxFits(Next(s, lease, Commit(x)).core, lease, s.txs[y])
  {
    var core' := Next(s, lease, Commit(x)).core;
    CommittedCore(s, lease, x);
    assert TxFits(s.core, lease, s.txs[x]) && TxFits(s.core, lease, s.txs[y]);
    forall j | j in s.txs[y].locked ensures WriteFits(core'.rows, lease, s.txs[y], j) {
      assert WriteFits(s.core.rows, lease, s.txs[y], j);
      assert j !in s.txs[x].locked;
    }
  }

  lemma HandedAfterCommit(s: State, lease: Time, x: TxId)
    requires Inv(s, lease) && x in s.txs
    ensures HandedFit(Next(s, lease, Commit(x)))
  {
    var tx, s' := s.txs[x], Next(s, lease, Commit(x));
    CommittedCore(s, lease, x);
    assert TxFits(s.core, lease, tx);
    forall j | j in s'.handed
      ensures j in s'.core.rows
      ensures Terminal(s'.core.rows[j]) || (s'.core.rows[j].status.Processing? && s'.core.rows[j].heartbeatAt == Some(s'.handed[j]))
    {
      if j in tx.locked {
        assert WriteFits(s.core.rows, lease, tx, j);
      }
    }
  }

  /** A step of the protocol writes one row at most, and occupies no worker. */
  lemma OtherStepWrites(core: P.State, lease: Time, step: P.Step)
    requires P.Legal(core, lease, step) && !step.ClaimNext?
    ensures var core' := P.Next(core, lease, step);
            && core.rows.Keys <= core'.rows.Keys && core.clock <= core'.clock
            && (forall j :: j in core.rows && Written(core, step) != Some(j) ==> core'.rows[j] == core.rows[j])
            && forall w :: P.Busy(core', w) ==> P.Busy(core, w)
  {
    var core' := P.Next(core, lease, step);
    forall w | P.Busy(core', w) ensures P.Busy(core, w) {
      var t :| t in core'.held && core'.held[t].claim.lockedBy == Some(w);
      assert t in core.held && core.held[t].claim.lockedBy == Some(w);
    }
  }

  lemma FitsThroughOther(s: State, lease: Time, step: P.Step, x: TxId)
    requires Inv(s, lease) && Enabled(s, lease, Other(step)) && x in s.txs
    ensures TxFits(P.Next(s.core, lease, step), lease, s.txs[x])
  {
    var tx, core' := s.txs[x], P.Next(s.core, lease, step);
    OtherStepWrites(s.core, lease, step);
    assert TxFits(s.core, lease, tx);
    forall j | j in tx.locked ensures WriteFits(core'.rows, lease, tx, j) {
      assert WriteFits(s.core.rows, lease, tx, j);
      assert j in LockedByAny(s);
    }
  }

  lemma HandedAfterOther(s: State, lease: Time, step: P.Step)
    requires Inv(s, lease) && Enabled(s, lease, Other(step))
    ensures HandedFit(Next(s, lease, Other(step)))
  {
    OtherStepWrites(s.core, lease, step);
  }

  /** Every step keeps the locks disjoint and the open transactions' writes fitting. */
  lemma InvStep(s: State, lease: Time, step: Step)
    requires Inv(s, lease) && Enabled(s, lease, step)
    ensures Inv(Next(s, lease, step), lease)
  {
    match step {
      case Begin(x, worker) =>
        forall y | y in s.txs ensures TxFits(s.core, lease, s.txs[y]) {
        }
      case Iterate(x) => InvAfterIterate(s, lease, x);
      case Commit(x) => InvAfterCommit(s, lease, x);
      case Abort(x) =>
      case Other(step) =>
        forall x | x in s.txs ensures TxFits(P.Next(s.core, lease, step), lease, s.txs[x]) {
          FitsThroughOther(s, lease, step, x);
        }
        HandedAfterOther(s, lease, step);
    }
  }

  // ---------------------------------------------------------------------- runs

  function Run(s: State, lease: Time, steps: seq<Step>): State
    decreases steps
  {
    if steps == [] then s else Run(Next(s, lease, steps[0]), lease, steps[1..])
  }

  ghost predicate EnabledRun(s: State, lease: Time, steps: seq<Step>)
    decreases steps
  {
    steps == [] || (Enabled(s, lease, steps[0]) && EnabledRun(Next(s, lease, steps[0]), lease, steps[1..]))
  }

  lemma {:induction false} InvRun(s: State, lease: Time, steps: seq<Step>)
    requires Inv(s, lease) && EnabledRun(s, lease, steps)
    ensures Inv(Run(s, lease, steps), lease)
    decreases steps
  {
    if steps != [] {
      InvStep(s, lease, steps[0]);
      InvRun(Next(s, lease, steps[0]), lease, steps[1..]);
    }
  }

  predicate Initial(s: State) { P.Initial(s.core) && s.txs == map[] && s.handed == map[] }

  /** The steps of the atomic protocol that a run amounts to: a commit is one claim call, and
      beginning, selecting and rolling back are nothing. */
  function Atomic(s: State, lease: Time, steps: seq<Step>): seq<P.Step>
    decreases steps
  {
    if steps == [] then []
    else
      (match steps[0]
       case Commit(x) => if x in s.txs then [P.ClaimNext(CallOf(s, x))] else []
       case Other(step) => [step]
       case _ => [])
      + Atomic(Next(s, lease, steps[0]), lease, steps[1..])
  }

  /** Concurrent claim transactions refine the atomic protocol: whatever the interleaving, the
      committed state is the one that a legal run of the protocol reaches. */
  lemma {:induction false} RefinesProtocol(s: State, lease: Time, steps: seq<Step>)
    requires Inv(s, lease) && EnabledRun(s, lease, steps)
    ensures P.LegalRun(s.core, lease, Atomic(s, lease, steps))
    ensures P.Run(s.core, lease, Atomic(s, lease, steps)) == Run(s, lease, steps).core
    decreases steps
  {
    if steps != [] {
      var s', rest := Next(s, lease, steps[0]), steps[1..];
      InvStep(s, lease, steps[0]);
      RefinesProtocol(s', lease, rest);
      match steps[0] {
        case Commit(x) =>
          CommitIsClaim(s, lease, x);
          OneMoreStep(s.core, lease, P.ClaimNext(CallOf(s, x)), Atomic(s', lease, rest));
        case Other(step) => OneMoreStep(s.core, lease, step, Atomic(s', lease, rest));
        case _ => ConcatUnit(Atomic(s', lease, rest));
      }
    }
  }

  lemma OneMoreStep(core: P.State, lease: Time, step: P.Step, rest: seq<P.Step>)
    requires P.Legal(core, lease, step) && P.Disciplined(core, step) && P.LegalRun(P.Next(core, lease, step), lease, rest)
    ensures P.LegalRun(core, lease, [step] + rest)
    ensures P.Run(core, lease, [step] + rest) == P.Run(P.Next(core, lease, step), lease, rest)
  {
    assert ([step] + rest)[1..] == rest;
  }

  /** So the fence holds of every committed state: at most one outstanding claim on a row
      passes the lease check, with claim transactions running at the same time. */
  lemma ConcurrentClaimsAreFenced(s0: State, lease: Time, steps: seq<Step>, t: P.Token, u: P.Token)
    requires Initial(s0) && EnabledRun(s0, lease, steps)
    requires t in Run(s0, lease, steps).core.held && u in Run(s0, lease, steps).core.held
    ensures var core := Run(s0, lease, steps).core;
            && (Passes(core.rows, core.held[t].claim) <==> P.Current(core, t))
            && (core.held[t].claim.id == core.held[u].claim.id
                ==> Passes(core.rows, core.held[t].claim) ==> Passes(core.rows, core.held[u].claim) ==> t == u)
  {
    RefinesProtocol(s0, lease, steps);
    P.AtMostOneClaimPasses(s0.core, lease, Atomic(s0, lease, steps), t, u);
  }

  /** In every interleaving, concurrent claim transactions hold disjoint row sets, and no
      row is claimed by two of them. */
  lemma LocksAreDisjoint(s0: State, lease: Time, steps: seq<Step>, x: TxId, y: TxId)
    requires Initial(s0) && EnabledRun(s0, lease, steps)
    requires x in Run(s0, lease, steps).txs && y in Run(s0, lease, steps).txs && x != y
    ensures var s := Run(s0, lease, steps);
            && s.txs[x].locked * s.txs[y].locked == {}
            && (s.txs[x].claimed.Some? ==> s.txs[x].claimed != s.txs[y].claimed)
  {
    InvRun(s0, lease, steps);
    var s := Run(s0, lease, steps);
    assert TxFits(s.core, lease, s.txs[x]);
    assert TxFits(s.core, lease, s.txs[y]);
  }

  /** What a commit writes is computed from the rows as committed at that moment, so no
      update is lost. */
  lemma CommitIsExact(s0: State, lease: Time, steps: seq<Step>, x: TxId, j: JobId)
    requires Initial(s0) && EnabledRun(s0, lease, steps)
    requires x in Run(s0, lease, steps).txs && j in Run(s0, lease, steps).core.rows
    ensures var s := Run(s0, lease, steps);
            var tx, rows := s.txs[x], Next(s, lease, Commit(x)).core.rows;
            && rows.Keys == s.core.rows.Keys
            && rows[j] == if j !in tx.locked then s.core.rows[j]
                          else if tx.claimed == Some(j) then Claimed(s.core.rows[j], tx.time, tx.worker)
                          else ExhaustedFailure(s.core.rows[j])
  {
    InvRun(s0, lease, steps);
    var s := Run(s0, lease, steps);
    CommittedCore(s, lease, x);
    assert TxFits(s.core, lease, s.txs[x]);
    assert j in s.txs[x].locked ==> WriteFits(s.core.rows, lease, s.txs[x], j);
  }

  /** No job is handed to two workers in one lease: between two hand-outs of a row, and after
      the last heartbeat in between, at least one whole lease passes, unless the API writes
      to the row. */
  lemma HandedOutOncePerLease(s0: State, lease: Time, steps: seq<Step>, x: TxId)
    requires Initial(s0) && EnabledRun(s0, lease, steps)
    requires x in Run(s0, lease, steps).txs
    ensures var s := Run(s0, lease, steps);
            var tx := s.txs[x];
            tx.claimed.Some? && tx.claimed.value in s.handed ==> tx.time - s.handed[tx.claimed.value] >= lease
  {
    InvRun(s0, lease, steps);
    var s := Run(s0, lease, steps);
    assert TxFits(s.core, lease, s.txs[x]);
    if s.txs[x].claimed.Some? {
      assert WriteFits(s.core.rows, lease, s.txs[x], s.txs[x].claimed.value);
    }
  }
}
