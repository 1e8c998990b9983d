/** What a compile writes to the store: the page first, then its claims one by one,
    each write a transaction of its own. */
module CompiledStore {
  import opened Sequences
  import opened Slugs
  import opened Wikilinks
  import opened WikiStore
  import opened WikiInvariants

  const SUPPORTED := "supported"
  const DEFAULT_CONFIDENCE := 0.5

  /** The page, claims and sources that a compile is about to save. */
  datatype Plan = Plan(input: PageInput, target: string, claims: seq<string>, sources: seq<ClaimSourceInput>)

  predicate IsPlan(plan: Plan) {
    && plan.input.slug == Some(plan.target)
    && Slugify(plan.target) == plan.target != ""
    && plan.input.format == MARKDOWN
  }

  function WriteAt(plan: Plan, k: nat): Op
    requires k <= |plan.claims|
  {
    if k == 0 then SavePage(plan.input) else ClaimOp(plan, plan.claims[k - 1])
  }

  function ClaimOp(plan: Plan, text: string): Op {
    SaveClaim(plan.input.tenantId, plan.target, text, plan.sources, SUPPORTED, Some(DEFAULT_CONFIDENCE))
  }

  /** The store after the first `done` writes. */
  function After(db: Db, plan: Plan, done: nat): Db
    requires done <= |plan.claims| + 1
  {
    if done == 0 then db else Perform(After(db, plan, done - 1), WriteAt(plan, done - 1))
  }

  /** The page that the plan is saved to. */
  function SavedPage(db: Db, plan: Plan): PageId {
    match FindPage(db.pages, plan.input.tenantId, plan.target)
    case Some(p) => p
    case None => |db.pages|
  }

  /** The status of that page afterwards. */
  function SavedStatus(db: Db, plan: Plan): string {
    match FindPage(db.pages, plan.input.tenantId, plan.target)
    case Some(p) => StatusOf(plan.input.status, Some(db.pages[p].status))
    case None => StatusOf(plan.input.status, None)
  }

  function SavedRevision(db: Db, plan: Plan): Revision {
    Revision(SavedPage(db, plan), |History(db.revisions, SavedPage(db, plan))| + 1, MARKDOWN, plan.input.content,
             plan.input.summary, plan.input.authorType)
  }

  function NewClaims(tenant: string, p: PageId, r: RevisionId, claims: seq<string>): (rows: seq<Claim>)
    ensures |rows| == |claims|
    ensures forall i :: 0 <= i < |rows| ==> rows[i] == Claim(tenant, p, r, claims[i], SUPPORTED, Some(DEFAULT_CONFIDENCE))
  {
    seq(|claims|, i requires 0 <= i < |claims| => Claim(tenant, p, r, claims[i], SUPPORTED, Some(DEFAULT_CONFIDENCE)))
  }

  /** The source rows of `n` claims whose ids start at `base`. */
  function SourceRows(base: ClaimId, n: nat, inputs: seq<ClaimSourceInput>): seq<ClaimSource> {
    if n == 0 then [] else SourceRows(base, n - 1, inputs) + NewSources(base + n - 1, inputs)
  }

  function SourcesOf(sources: seq<ClaimSource>, claim: ClaimId): seq<ClaimSource> {
    if sources == [] then []
    else
      var last := sources[|sources| - 1];
      SourcesOf(sources[..|sources| - 1], claim) + (if last.claimId == claim then [last] else [])
  }

  // ------------------------------------------------------------ one write

  lemma PageWritten(db: Db, plan: Plan)
    requires StoreInv(db) && IsPlan(plan)
    ensures var db1, p, id := Perform(db, SavePage(plan.input)), SavedPage(db, plan), |db.revisions|;
            && CreateOrUpdatePage(db, plan.input) == Ok((db1, Detail(p, id)))
            && p < |db1.pages| && FindPage(db1.pages, plan.input.tenantId, plan.target) == Some(p)
            && CurrentRevision(db1, p) == Some(id)
            && db1.revisions == db.revisions + [SavedRevision(db, plan)]
            && db1.claims == db.claims && db1.sources == db.sources && db1.jobs == db.jobs
            && db1.pages[p].title == plan.input.title && db1.pages[p].pageType == plan.input.pageType
            && db1.pages[p].status == SavedStatus(db, plan)
  {
    var input := plan.input;
    SavePageKeeps(db, input);
    SlugifyNormalForm(plan.target);
    PreparePageKeeps(db, input, plan.target);
    var (db1, p) := PreparePage(db, input, plan.target);
    ReviseShape(db1, p, input.format, input.content, input.summary, input.authorType);
    FoundPageIs(CreateOrUpdatePage(db, input).value.0, p);
  }

  /** Saving a page leaves every other page, its history and its links as they were. */
  lemma OtherPagesStay(db: Db, plan: Plan, q: PageId)
    requires StoreInv(db) && IsPlan(plan) && q < |db.pages| && q != SavedPage(db, plan)
    ensures var db1 := Perform(db, SavePage(plan.input));
            && q < |db1.pages| && db1.pages[q] == db.pages[q]
            && History(db1.revisions, q) == History(db.revisions, q) && LinksFrom(db1.links, q) == LinksFrom(db.links, q)
  {
    SavePageTouchesOnePage(db, plan.input, q);
  }

  lemma ClaimWritten(db: Db, plan: Plan, text: string, p: PageId, r: RevisionId)
    requires IsPlan(plan) && FindPage(db.pages, plan.input.tenantId, plan.target) == Some(p) && CurrentRevision(db, p) == Some(r)
    ensures AddClaim(db, plan.input.tenantId, plan.target, text, plan.sources, SUPPORTED, Some(DEFAULT_CONFIDENCE)).Ok?
    ensures Perform(db, ClaimOp(plan, text)) ==
            db.(claims := db.claims + [Claim(plan.input.tenantId, p, r, text, SUPPORTED, Some(DEFAULT_CONFIDENCE))],
                sources := db.sources + NewSources(|db.claims|, plan.sources))
  {
  }

  // ------------------------------------------------------------ all writes

  lemma {:induction false} WritesKeep(db: Db, plan: Plan, done: nat)
    requires StoreInv(db) && done <= |plan.claims| + 1
    ensures StoreInv(After(db, plan, done)) && db.revisions <= After(db, plan, done).revisions
  {
    if done > 0 {
      WritesKeep(db, plan, done - 1);
      PerformKeeps(After(db, plan, done - 1), WriteAt(plan, done - 1));
    }
  }

  /** The store `db1` with `n` of the plan's claims added on revision `r` of page `p`. */
  function WithClaims(db1: Db, plan: Plan, p: PageId, r: RevisionId, n: nat): Db
    requires n <= |plan.claims|
  {
    db1.(claims := db1.claims + NewClaims(plan.input.tenantId, p, r, plan.claims[..n]),
         sources := db1.sources + SourceRows(|db1.claims|, n, plan.sources))
  }

  lemma OneMoreClaim(db1: Db, plan: Plan, p: PageId, r: RevisionId, n: nat)
    requires IsPlan(plan) && FindPage(db1.pages, plan.input.tenantId, plan.target) == Some(p) && CurrentRevision(db1, p) == Some(r)
    requires n < |plan.claims|
    ensures Perform(WithClaims(db1, plan, p, r, n), ClaimOp(plan, plan.claims[n])) == WithClaims(db1, plan, p, r, n + 1)
  {
    var tenant := plan.input.tenantId;
    ClaimWritten(WithClaims(db1, plan, p, r, n), plan, plan.claims[n], p, r);
    NewClaimsSnoc(tenant, p, r, plan.claims, n);
    ConcatAssoc(db1.claims, NewClaims(tenant, p, r, plan.claims[..n]), [Claim(tenant, p, r, plan.claims[n], SUPPORTED, Some(DEFAULT_CONFIDENCE))]);
    ConcatAssoc(db1.sources, SourceRows(|db1.claims|, n, plan.sources), NewSources(|db1.claims| + n, plan.sources));
  }

  lemma NewClaimsSnoc(tenant: string, p: PageId, r: RevisionId, claims: seq<string>, n: nat)
    requires n < |claims|
    ensures NewClaims(tenant, p, r, claims[..n + 1]) ==
            NewClaims(tenant, p, r, claims[..n]) + [Claim(tenant, p, r, claims[n], SUPPORTED, Some(DEFAULT_CONFIDENCE))]
  {
  }

  lemma NoClaims(db1: Db, plan: Plan, p: PageId, r: RevisionId)
    ensures WithClaims(db1, plan, p, r, 0) == db1
  {
    assert db1.claims + NewClaims(plan.input.tenantId, p, r, plan.claims[..0]) == db1.claims;
    assert db1.sources + SourceRows(|db1.claims|, 0, plan.sources) == db1.sources;
  }

  lemma SavedPageIsCurrent(db: Db, plan: Plan)
    requires StoreInv(db) && IsPlan(plan)
    ensures var db1, p := Perform(db, SavePage(plan.input)), SavedPage(db, plan);
            FindPage(db1.pages, plan.input.tenantId, plan.target) == Some(p) && CurrentRevision(db1, p) == Some(|db.revisions|)
  {
    PageWritten(db, plan);
  }

  /** After the page has been saved, each further write adds one claim and its sources. */
  lemma {:induction false} ClaimsWritten(db: Db, plan: Plan, n: nat)
    requires StoreInv(db) && IsPlan(plan) && n <= |plan.claims|
    ensures After(db, plan, n + 1) == WithClaims(Perform(db, SavePage(plan.input)), plan, SavedPage(db, plan), |db.revisions|, n)
  {
    if n == 0 {
      PageIsFirst(db, plan);
    } else {
      ClaimsWritten(db, plan, n - 1);
      NextClaim(db, plan, n - 1);
    }
  }

  lemma PageIsFirst(db: Db, plan: Plan)
    ensures After(db, plan, 1) == WithClaims(Perform(db, SavePage(plan.input)), plan, SavedPage(db, plan), |db.revisions|, 0)
  {
    assert After(db, plan, 0) == db;
    NoClaims(Perform(db, SavePage(plan.input)), plan, SavedPage(db, plan), |db.revisions|);
  }

  lemma NextClaim(db: Db, plan: Plan, n: nat)
    requires StoreInv(db) && IsPlan(plan) && n < |plan.claims|
    requires After(db, plan, n + 1) == WithClaims(Perform(db, SavePage(plan.input)), plan, SavedPage(db, plan), |db.revisions|, n)
    ensures After(db, plan, n + 2) == WithClaims(Perform(db, SavePage(plan.input)), plan, SavedPage(db, plan), |db.revisions|, n + 1)
  {
    SavedPageIsCurrent(db, plan);
    OneMoreClaim(Perform(db, SavePage(plan.input)), plan, SavedPage(db, plan), |db.revisions|, n);
  }

  lemma JobsStay(db: Db, plan: Plan, done: nat)
    requires StoreInv(db) && IsPlan(plan) && done <= |plan.claims| + 1
    ensures After(db, plan, done).jobs == db.jobs
  {
    if done > 0 {
      PageWritten(db, plan);
      ClaimsWritten(db, plan, done - 1);
    }
  }

  // --------------------------------------------------- sources of each claim

  lemma {:induction false} SourcesOfConcat(a: seq<ClaimSource>, b: seq<ClaimSource>, claim: ClaimId)
    ensures SourcesOf(a + b, claim) == SourcesOf(a, claim) + SourcesOf(b, claim)
  {
    if b == [] {
      assert a + b == a;
    } else {
      assert (a + b)[..|a + b| - 1] == a + b[..|b| - 1];
      SourcesOfConcat(a, b[..|b| - 1], claim);
    }
  }

  lemma {:induction false} SourcesOfOne(rows: seq<ClaimSource>, owner: ClaimId, claim: ClaimId)
    requires forall i :: 0 <= i < |rows| ==> rows[i].claimId == owner
    ensures SourcesOf(rows, claim) == if owner == claim then rows else []
  {
    if rows != [] {
      SourcesOfOne(rows[..|rows| - 1], owner, claim);
      assert rows == rows[..|rows| - 1] + [rows[|rows| - 1]];
    }
  }

  lemma {:induction false} SourcesOfOld(rows: seq<ClaimSource>, claim: ClaimId)
    requires forall i :: 0 <= i < |rows| ==> rows[i].claimId < claim
    ensures SourcesOf(rows, claim) == []
  {
    if rows != [] {
      SourcesOfOld(rows[..|rows| - 1], claim);
    }
  }

  lemma {:induction false} NoSourceRowsOf(base: ClaimId, n: nat, inputs: seq<ClaimSourceInput>, claim: ClaimId)
    requires claim < base || base + n <= claim
    ensures SourcesOf(SourceRows(base, n, inputs), claim) == []
  {
    if n > 0 {
      NoSourceRowsOf(base, n - 1, inputs, claim);
      SourcesOfAppended(SourceRows(base, n - 1, inputs), NewSources(base + n - 1, inputs), base + n - 1, claim);
    }
  }

  lemma {:induction false} SourceRowsOf(base: ClaimId, n: nat, inputs: seq<ClaimSourceInput>, claim: ClaimId)
    requires base <= claim < base + n
    ensures SourcesOf(SourceRows(base, n, inputs), claim) == NewSources(claim, inputs)
  {
    var last := base + n - 1;
    if claim == last {
      NoSourceRowsOf(base, n - 1, inputs, claim);
    } else {
      SourceRowsOf(base, n - 1, inputs, claim);
    }
    SourcesOfAppended(SourceRows(base, n - 1, inputs), NewSources(last, inputs), last, claim);
  }

  lemma SourcesOfAppended(rows: seq<ClaimSource>, more: seq<ClaimSource>, owner: ClaimId, claim: ClaimId)
    requires forall i :: 0 <= i < |more| ==> more[i].claimId == owner
    requires owner == claim ==> SourcesOf(rows, claim) == []
    ensures SourcesOf(rows + more, claim) == if owner == claim then more else SourcesOf(rows, claim)
  {
    SourcesOfConcat(rows, more, claim);
    SourcesOfOne(more, owner, claim);
    ConcatUnit(more);
    ConcatUnit(SourcesOf(rows, claim));
  }

  lemma AppendedSources(rows: seq<ClaimSource>, base: ClaimId, n: nat, inputs: seq<ClaimSourceInput>, claim: ClaimId)
    requires forall i :: 0 <= i < |rows| ==> rows[i].claimId < base
    ensures SourcesOf(rows + SourceRows(base, n, inputs), claim) ==
            if base <= claim < base + n then NewSources(claim, inputs) else SourcesOf(rows, claim)
  {
    SourcesOfConcat(rows, SourceRows(base, n, inputs), claim);
    if base <= claim < base + n {
      SourceRowsOf(base, n, inputs, claim);
      SourcesOfOld(rows, claim);
      ConcatUnit(NewSources(claim, inputs));
    } else {
      NoSourceRowsOf(base, n, inputs, claim);
      ConcatUnit(SourcesOf(rows, claim));
    }
  }

  // ------------------------------------------------------------ conservation

  /** `db'` is `db` with exactly one more revision, on the plan's page and current there, and
      exactly `n` more claims, all on that revision and each with exactly the plan's sources. */
  ghost predicate Conserved(db: Db, db': Db, plan: Plan, n: nat)
    requires n <= |plan.claims|
  {
    var p := SavedPage(db, plan);
    && db'.revisions == db.revisions + [SavedRevision(db, plan)]
    && FindPage(db'.pages, plan.input.tenantId, plan.target) == Some(p)
    && CurrentRevision(db', p) == Some(|db.revisions|)
    && db'.pages[p].title == plan.input.title && db'.pages[p].pageType == plan.input.pageType
    && db'.pages[p].status == SavedStatus(db, plan)
    && db'.claims == db.claims + NewClaims(plan.input.tenantId, p, |db.revisions|, plan.claims[..n])
    && (forall c: nat :: SourcesOf(db'.sources, c) ==
          if |db.claims| <= c < |db.claims| + n then NewSources(c, plan.sources) else SourcesOf(db.sources, c))
  }

  /** Conservation, wherever after the page the compile stops. */
  lemma CompileConserves(db: Db, plan: Plan, n: nat)
    requires StoreInv(db) && IsPlan(plan) && n <= |plan.claims|
    ensures Conserved(db, After(db, plan, n + 1), plan, n)
  {
    PageConserves(db, plan);
    ClaimsWritten(db, plan, n);
    var db1 := Perform(db, SavePage(plan.input));
    ClaimsConserve(db, db1, plan, n);
  }

  lemma PageConserves(db: Db, plan: Plan)
    requires StoreInv(db) && IsPlan(plan)
    ensures var db1 := Perform(db, SavePage(plan.input)); Conserved(db, db1, plan, 0) && db1.sources == db.sources
  {
    PageWritten(db, plan);
  }

  lemma ClaimsConserve(db: Db, db1: Db, plan: Plan, n: nat)
    requires n <= |plan.claims| && StoreInv(db) && Conserved(db, db1, plan, 0) && db1.sources == db.sources
    ensures Conserved(db, WithClaims(db1, plan, SavedPage(db, plan), |db.revisions|, n), plan, n)
  {
    var db' := WithClaims(db1, plan, SavedPage(db, plan), |db.revisions|, n);
    assert db1.claims == db.claims;
    forall c: nat
      ensures SourcesOf(db'.sources, c) ==
              if |db.claims| <= c < |db.claims| + n then NewSources(c, plan.sources) else SourcesOf(db.sources, c)
    {
      AppendedSources(db.sources, |db.claims|, n, plan.sources, c);
    }
  }

  /** A compile leaves every other page, its history and its links as they were. */
  lemma CompileTouchesOnePage(db: Db, plan: Plan, n: nat, q: PageId)
    requires StoreInv(db) && IsPlan(plan) && n <= |plan.claims| && q < |db.pages| && q != SavedPage(db, plan)
    ensures var db' := After(db, plan, n + 1);
            && q < |db'.pages| && db'.pages[q] == db.pages[q]
            && History(db'.revisions, q) == History(db.revisions, q) && LinksFrom(db'.links, q) == LinksFrom(db.links, q)
  {
    ClaimsWritten(db, plan, n);
    OtherPagesStay(db, plan, q);
  }

  /** The page links to what the compiled text links to, however many claims were saved. */
  lemma CompiledLinks(db: Db, plan: Plan, n: nat, slug: string)
    requires StoreInv(db) && IsPlan(plan) && n <= |plan.claims|
    ensures var db', p := After(db, plan, n + 1), SavedPage(db, plan);
            p in Backlinks(db', plan.input.tenantId, slug) <==> slug in LinkedSlugs(plan.input.content)
  {
    WritesKeep(db, plan, n + 1);
    CompileConserves(db, plan, n);
    ConservedLinks(db, After(db, plan, n + 1), plan, n, slug);
  }

  lemma ConservedLinks(db: Db, db': Db, plan: Plan, n: nat, slug: string)
    requires n <= |plan.claims| && StoreInv(db') && Conserved(db, db', plan, n)
    ensures SavedPage(db, plan) in Backlinks(db', plan.input.tenantId, slug) <==> slug in LinkedSlugs(plan.input.content)
  {
    var p := SavedPage(db, plan);
    HistorySnoc(db.revisions, SavedRevision(db, plan), p);
    var h := History(db'.revisions, p);
    assert h[|h| - 1] == SavedRevision(db, plan);
    assert LatestTargets(db', p) == LinkedSlugs(plan.input.content);
    BacklinksAreExact(db', plan.input.tenantId, slug);
  }

  /** The compile jobs are no part of the invariant. */
  lemma JobsAreApart(db: Db, jobs: seq<CompileJob>)
    requires StoreInv(db)
    ensures StoreInv(db.(jobs := jobs))
  {
    var db' := db.(jobs := jobs);
    forall p | 0 <= p < |db'.pages| ensures PageOk(db', p) {
      assert PageOk(db, p);
      assert LatestTargets(db', p) == LatestTargets(db, p);
    }
  }
}
