/** What validation says about a page that has just been compiled. */
module CompiledIssues {
  import opened Sequences
  import opened Wikilinks
  import opened WikiStore
  import opened WikiInvariants
  import opened CompiledStore
  import opened Validation

  /** However many of its claims were saved, whatever was in the store: no claim of a compiled page is
      reported as unconfirmed, and its broken links are exactly those that its new text links to
      without a page, in order. */
  lemma CompiledPageIssues(db: Db, plan: Plan, n: nat, slug: string)
    requires StoreInv(db) && IsPlan(plan) && n <= |plan.claims|
    ensures var db', p := After(db, plan, n + 1), SavedPage(db, plan);
            && p < |db'.pages| && db'.pages[p].current == Some(|db.revisions|) && |db.revisions| < |db'.revisions|
            && var revision := db'.revisions[|db.revisions|];
               && IssuesOf(db', p, revision, UnsupportedClaims) == []
               && (slug in BrokenTargets(db'.pages, db'.pages[p].tenantId, revision) <==>
                     slug in LinkedSlugs(plan.input.content) && FindPage(db'.pages, plan.input.tenantId, slug).None?)
  {
    var db', p := After(db, plan, n + 1), SavedPage(db, plan);
    CompileConserves(db, plan, n);
    NewClaimsConfirmed(db, db', plan, n);
    BrokenTargetsAreExact(db', plan.input.tenantId, db'.revisions[|db.revisions|]);
  }

  lemma NewClaimsConfirmed(db: Db, db': Db, plan: Plan, n: nat)
    requires n <= |plan.claims| && StoreInv(db) && Conserved(db, db', plan, n)
    ensures UnsupportedIssues(db'.claims, plan.input.tenantId, SavedPage(db, plan), Some(|db.revisions|)) == []
  {
    var added := NewClaims(plan.input.tenantId, SavedPage(db, plan), |db.revisions|, plan.claims[..n]);
    UnsupportedIff(db'.claims, plan.input.tenantId, SavedPage(db, plan), Some(|db.revisions|));
    forall c | c in db'.claims && c.revisionId == |db.revisions| ensures !Unconfirmed(c) {
      var i :| 0 <= i < |db'.claims| && db'.claims[i] == c;
      assert i >= |db.claims| && c == added[i - |db.claims|];
    }
  }
}
