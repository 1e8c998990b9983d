/** The re-entrant transaction helpers of the two repositories, run over
    arbitrarily nested programs of reads, writes, failures, handlers and blocks. */
module WikiTransactions {

  /** The session's transaction: none, one that the session began by itself on first
      use, or one that was begun explicitly. */
  datatype Origin = NoTransaction | Autobegun | Begun

  /** Rows of the database, by key: what is committed, or what a transaction sees. */
  type Data = map<string, string>

  datatype Prog =
    | Read
    | Write(key: string, value: string)
    | Raise
    | Then(first: Prog, second: Prog)
    | Handle(body: Prog)
    | Block(body: Prog)

  /** A repository on its session: the committed rows, the rows that the session's
      transaction sees, who began it, and the repository's block depth. */
  datatype Session = Session(durable: Data, pending: Data, origin: Origin, depth: nat)

  /** The helper of `wiki/repository.py`, or the one of the ingest job repository,
      which joins any open transaction. */
  datatype Helper = WikiHelper | IngestHelper

  predicate Joins(helper: Helper, s: Session) {
    match helper
    case WikiHelper => s.depth > 0 || s.origin.Begun?
    case IngestHelper => !s.origin.NoTransaction?
  }

  function Open(s: Session, origin: Origin): Session {
    if s.origin.NoTransaction? then s.(pending := s.durable, origin := origin) else s
  }

  function Commit(s: Session): Session { s.(durable := s.pending, origin := NoTransaction) }

  function Rollback(s: Session): Session { s.(pending := s.durable, origin := NoTransaction) }

  /** Runs a program; the flag says that it ended without an exception. A handler
      catches the exception of its body. */
  function Exec(helper: Helper, p: Prog, s: Session): (Session, bool)
    decreases p
  {
    match p
    case Read => (Open(s, Autobegun), true)
    case Write(k, v) =>
      var u := Open(s, Autobegun);
      (u.(pending := u.pending[k := v]), true)
    case Raise => (s, false)
    case Then(a, b) =>
      var (s1, ok) := Exec(helper, a, s);
      if ok then Exec(helper, b, s1) else (s1, false)
    case Handle(a) => (Exec(helper, a, s).0, true)
    case Block(a) =>
      if Joins(helper, s) then Exec(helper, a, s)
      else
        var (s1, ok) := Exec(helper, a, Open(s, Begun).(depth := s.depth + 1));
        var ended := if ok then Commit(s1) else Rollback(s1);
        (ended.(depth := s.depth), ok)
  }

  // ------------------------------------------------------ reference semantics

  datatype Effect = Effect(writes: seq<(string, string)>, ok: bool)

  /** The writes that a program performs, in order, and whether it ends normally:
      blocks do not matter for that. */
  function EffectOf(p: Prog): Effect {
    match p
    case Read => Effect([], true)
    case Write(k, v) => Effect([(k, v)], true)
    case Raise => Effect([], false)
    case Then(a, b) =>
      var x, y := EffectOf(a), EffectOf(b);
      if x.ok then Effect(x.writes + y.writes, y.ok) else x
    case Handle(a) => EffectOf(a).(ok := true)
    case Block(a) => EffectOf(a)
  }

  function Apply(d: Data, writes: seq<(string, string)>): Data
    decreases |writes|
  {
    if writes == [] then d
    else Apply(d, writes[..|writes| - 1])[writes[|writes| - 1].0 := writes[|writes| - 1].1]
  }

  lemma {:induction false} ApplyConcat(d: Data, a: seq<(string, string)>, b: seq<(string, string)>)
    ensures Apply(d, a + b) == Apply(Apply(d, a), b)
    decreases |b|
  {
    if b == [] {
      assert a + b == a;
    } else {
      assert (a + b)[..|a + b| - 1] == a + b[..|b| - 1];
      ApplyConcat(d, a, b[..|b| - 1]);
    }
  }

  /** The flat reading of a top-level program on committed and uncommitted rows: each
      outermost block is one atomic step, whatever blocks it contains. */
  datatype Flat = Flat(durable: Data, pending: Data, ok: bool)

  function FlatExec(p: Prog, durable: Data, pending: Data): Flat {
    match p
    case Read => Flat(durable, pending, true)
    case Write(k, v) => Flat(durable, pending[k := v], true)
    case Raise => Flat(durable, pending, false)
    case Then(a, b) =>
      var f := FlatExec(a, durable, pending);
      if f.ok then FlatExec(b, f.durable, f.pending) else f
    case Handle(a) => FlatExec(a, durable, pending).(ok := true)
    case Block(a) =>
      var e := EffectOf(a);
      if e.ok then Flat(Apply(pending, e.writes), Apply(pending, e.writes), true)
      else Flat(durable, durable, false)
  }

  /** The program with every block taken away. */
  function Erase(p: Prog): Prog {
    match p
    case Then(a, b) => Then(Erase(a), Erase(b))
    case Handle(a) => Handle(Erase(a))
    case Block(a) => Erase(a)
    case _ => p
  }

  lemma {:induction false} EraseKeepsEffect(p: Prog)
    ensures EffectOf(Erase(p)) == EffectOf(p)
  {
    match p {
      case Then(a, b) => EraseKeepsEffect(a); EraseKeepsEffect(b);
      case Handle(a) => EraseKeepsEffect(a);
      case Block(a) => EraseKeepsEffect(a);
      case _ =>
    }
  }

  // ------------------------------------------------------------- the theorems

  /** Whether a program ends without an exception is up to the program alone. */
  lemma {:induction false} EndsAsItsEffect(helper: Helper, p: Prog, s: Session)
    ensures Exec(helper, p, s).1 == EffectOf(p).ok
  {
    match p {
      case Then(a, b) =>
        EndsAsItsEffect(helper, a, s);
        EndsAsItsEffect(helper, b, Exec(helper, a, s).0);
      case Block(a) =>
        EndsAsItsEffect(helper, a, s);
        EndsAsItsEffect(helper, a, Open(s, Begun).(depth := s.depth + 1));
      case _ =>
    }
  }

  /** Inside an open transaction that every block joins, a program only adds its writes to
      what the transaction sees: it neither commits nor rolls back, at any nesting. */
  lemma {:induction false} InsideTransaction(helper: Helper, p: Prog, s: Session)
    requires !s.origin.NoTransaction? && Joins(helper, s)
    ensures Exec(helper, p, s) == (s.(pending := Apply(s.pending, EffectOf(p).writes)), EffectOf(p).ok)
  {
    match p {
      case Then(a, b) =>
        InsideTransaction(helper, a, s);
        var s1 := Exec(helper, a, s).0;
        if EffectOf(a).ok {
          InsideTransaction(helper, b, s1);
          ApplyConcat(s.pending, EffectOf(a).writes, EffectOf(b).writes);
        }
      case Handle(a) => InsideTransaction(helper, a, s);
      case Block(a) => InsideTransaction(helper, a, s);
      case Write(k, v) => assert [(k, v)][..0] == [];
      case _ =>
    }
  }

  /** A transaction that the caller began is the caller's: whatever a program does inside it, with
      blocks at any nesting, is added to what the transaction sees; it stays open and uncommitted. */
  lemma CallersTransactionStaysOpen(p: Prog, s: Session)
    requires s.origin.Begun?
    ensures var (s', ok) := Exec(WikiHelper, p, s);
            && s' == Session(s.durable, Apply(s.pending, EffectOf(p).writes), Begun, s.depth)
            && ok == EffectOf(p).ok
  {
    InsideTransaction(WikiHelper, p, s);
  }

  /** So is every transaction, for a block of the wiki helper inside another one. */
  lemma InnerBlockStaysOpen(p: Prog, s: Session)
    requires s.depth > 0 && (s.origin.Begun? || s.origin.Autobegun?)
    ensures var (s', ok) := Exec(WikiHelper, p, s);
            && s' == s.(pending := Apply(s.pending, EffectOf(p).writes))
            && ok == EffectOf(p).ok
  {
    InsideTransaction(WikiHelper, p, s);
  }

  /** And for the ingest helper every open transaction is, even one that an earlier read began. */
  lemma IngestHelperJoinsAny(p: Prog, s: Session)
    requires s.origin.Begun? || s.origin.Autobegun?
    ensures var (s', ok) := Exec(IngestHelper, p, s);
            && s' == s.(pending := Apply(s.pending, EffectOf(p).writes))
            && ok == EffectOf(p).ok
  {
    InsideTransaction(IngestHelper, p, s);
  }

  /** An outermost block commits everything it wrote on normal exit and nothing on an
      exception, whether or not an earlier read had begun a transaction; afterwards no
      transaction is open and the depth is what it was. */
  lemma OutermostBlock(p: Prog, s: Session)
    requires s.depth == 0 && !s.origin.Begun?
    ensures var (s', ok) := Exec(WikiHelper, Block(p), s);
            var e := EffectOf(p);
            var base := if s.origin.NoTransaction? then s.durable else s.pending;
            && ok == e.ok
            && s'.durable == (if e.ok then Apply(base, e.writes) else s.durable)
            && s'.pending == s'.durable && s'.origin.NoTransaction? && s'.depth == 0
  {
    var begun := Open(s, Begun).(depth := 1);
    var e := EffectOf(p);
    InsideTransaction(WikiHelper, p, begun);
    BlockOnIdle(WikiHelper, p, s, begun.(pending := Apply(begun.pending, e.writes)), e.ok);
  }

  lemma BlockOnIdle(helper: Helper, p: Prog, s: Session, s1: Session, ok: bool)
    requires !Joins(helper, s)
    requires Exec(helper, p, Open(s, Begun).(depth := s.depth + 1)) == (s1, ok)
    ensures Exec(helper, Block(p), s) == ((if ok then Commit(s1) else Rollback(s1)).(depth := s.depth), ok)
  {
  }

  /** Only the outermost block counts: taking every inner block away changes nothing. */
  lemma InnerBlocksDoNotMatter(p: Prog, s: Session)
    requires s.depth == 0 && !s.origin.Begun?
    ensures Exec(WikiHelper, Block(p), s) == Exec(WikiHelper, Block(Erase(p)), s)
  {
    OutermostBlock(p, s);
    OutermostBlock(Erase(p), s);
    EraseKeepsEffect(p);
  }

  /** A session that its caller has not begun a transaction on. */
  predicate Idle(s: Session) { s.depth == 0 && !s.origin.Begun? && (s.origin.NoTransaction? ==> s.pending == s.durable) }

  /** Any program of standalone reads, standalone writes, handlers and nested blocks runs
      on an idle session as its flat reading does, and leaves the session idle. The flat
      reading never asks who began a transaction: an earlier read suppresses no commit. */
  lemma {:induction false} RunsAsFlat(p: Prog, s: Session)
    requires Idle(s)
    ensures var (s', ok) := Exec(WikiHelper, p, s);
            && Idle(s') && s'.depth == 0
            && FlatExec(p, s.durable, s.pending) == Flat(s'.durable, s'.pending, ok)
  {
    match p {
      case Then(a, b) =>
        RunsAsFlat(a, s);
        var (s1, ok) := Exec(WikiHelper, a, s);
        if ok {
          RunsAsFlat(b, s1);
        }
      case Handle(a) => RunsAsFlat(a, s);
      case Block(a) => OutermostBlock(a, s);
      case _ =>
    }
  }

  /** No write outside a block. */
  predicate WritesInBlocks(p: Prog) {
    match p
    case Write(_, _) => false
    case Then(a, b) => WritesInBlocks(a) && WritesInBlocks(b)
    case Handle(a) => WritesInBlocks(a)
    case _ => true
  }

  /** Without standalone writes nothing is ever left uncommitted: what the session sees
      is what is committed. */
  lemma {:induction false} NothingLeftPending(p: Prog, d: Data)
    requires WritesInBlocks(p)
    ensures FlatExec(p, d, d).pending == FlatExec(p, d, d).durable
  {
    match p {
      case Then(a, b) =>
        NothingLeftPending(a, d);
        NothingLeftPending(b, FlatExec(a, d, d).durable);
      case Handle(a) => NothingLeftPending(a, d);
      case _ =>
    }
  }

  /** The block of the ingest repository joins an autobegun transaction: on an idle
      session it ends the transaction it runs in exactly when none was open before. */
  lemma IngestBlockCommits(p: Prog, s: Session)
    requires Idle(s)
    ensures var (s', ok) := Exec(IngestHelper, Block(p), s);
            && (s'.origin.NoTransaction? <==> s.origin.NoTransaction?)
            && (s.origin.NoTransaction? ==> (s', ok) == Exec(WikiHelper, Block(p), s))
            && (s.origin.Autobegun? ==> s'.durable == s.durable)
  {
    if s.origin.NoTransaction? {
      InsideTransaction(IngestHelper, p, Open(s, Begun).(depth := 1));
      OutermostBlock(p, s);
    } else {
      InsideTransaction(IngestHelper, p, s);
    }
  }

  // ------------------------------------------------------------ the repository

  /** A wiki repository on its session, whose fields the helper updates in place. */
  class RepositorySession {
    var durable: Data
    var pending: Data
    var origin: Origin
    var transactionDepth: nat

    function View(): Session
      reads this
    {
      Session(durable, pending, origin, transactionDepth)
    }

    constructor (data: Data)
      ensures View() == Session(data, data, NoTransaction, 0)
    {
      durable, pending, origin, transactionDepth := data, data, NoTransaction, 0;
    }

    method Use()
      modifies this
      ensures View() == Open(old(View()), Autobegun)
    {
      if origin == NoTransaction {
        pending, origin := durable, Autobegun;
      }
    }

    /** Runs a program on the session; a block goes through the transaction helper. */
    method Execute(p: Prog) returns (ok: bool)
      modifies this
      ensures (View(), ok) == Exec(WikiHelper, p, old(View()))
      decreases p, 0
    {
      match p
      case Read =>
        Use();
        ok := true;
      case Write(key, value) =>
        Use();
        pending := pending[key := value];
        ok := true;
      case Raise =>
        ok := false;
      case Then(first, second) =>
        ok := Execute(first);
        if ok {
          ok := Execute(second);
        }
      case Handle(body) =>
        var _ := Execute(body);
        ok := true;
      case Block(body) =>
        ok := Transaction(body);
    }

    /** The helper around `body`: join, end the autobegun transaction, or begin one. */
    method Transaction(body: Prog) returns (ok: bool)
      modifies this
      ensures (View(), ok) == Exec(WikiHelper, Block(body), old(View()))
      ensures ok == EffectOf(body).ok
      ensures old(origin) == Begun || (old(origin) == Autobegun && old(transactionDepth) > 0) ==>
                View() == old(View()).(pending := Apply(old(pending), EffectOf(body).writes))
      ensures old(transactionDepth) == 0 && old(origin) != Begun ==>
                && origin == NoTransaction && transactionDepth == 0 && pending == durable
                && durable == (if !ok then old(durable)
                               else Apply(if old(origin) == Autobegun then old(pending) else old(durable), EffectOf(body).writes))
      decreases body, 1
    {
      BlockEnds(body, View());
      if transactionDepth > 0 {
        ok := Execute(body);
        return;
      }
      if origin != NoTransaction {
        if origin != Autobegun {
          ok := Execute(body);
          return;
        }
        transactionDepth := transactionDepth + 1;
        DepthOneIsOpen(body, View());
        ok := Execute(body);
        EndTransaction(ok);
        transactionDepth := transactionDepth - 1;
        return;
      }
      transactionDepth := transactionDepth + 1;
      pending, origin := durable, Begun;
      DepthOneIsOpen(body, View());
      ok := Execute(body);
      EndTransaction(ok);
      transactionDepth := transactionDepth - 1;
    }

    method EndTransaction(ok: bool)
      modifies this
      ensures View() == if ok then Commit(old(View())) else Rollback(old(View()))
    {
      if ok {
        durable, origin := pending, NoTransaction;
      } else {
        pending, origin := durable, NoTransaction;
      }
    }
  }

  /** How a block ends, by who began the transaction it finds. */
  lemma BlockEnds(body: Prog, s: Session)
    ensures var (s', ok) := Exec(WikiHelper, Block(body), s);
            && ok == EffectOf(body).ok
            && (s.origin == Begun || (s.origin == Autobegun && s.depth > 0) ==>
                  s' == s.(pending := Apply(s.pending, EffectOf(body).writes)))
            && (s.depth == 0 && s.origin != Begun ==>
                  s' == (var d := if !ok then s.durable
                                  else Apply(if s.origin == Autobegun then s.pending else s.durable, EffectOf(body).writes);
                         Session(d, d, NoTransaction, 0)))
  {
    EndsAsItsEffect(WikiHelper, Block(body), s);
    assert EffectOf(Block(body)) == EffectOf(body);
    if s.origin == Begun {
      CallersTransactionStaysOpen(Block(body), s);
    } else if s.depth == 0 {
      OutermostBlock(body, s);
    } else if s.origin == Autobegun {
      InnerBlockStaysOpen(Block(body), s);
    }
  }

  /** A body never changes the depth of the block around it. */
  lemma DepthOneIsOpen(p: Prog, s: Session)
    requires s.depth == 1 && !s.origin.NoTransaction?
    ensures Exec(WikiHelper, p, s).0.depth == 1
  {
    InsideTransaction(WikiHelper, p, s);
  }
}
