/** Page validation: which wikilinks of the current text are broken, how a run's
    results replace the earlier ones, and why creating the missing pages repairs it. */
module Validation {
  import opened Sequences
  import opened Text
  import opened Slugs
  import opened Wikilinks
  import opened WikiStore
  import opened WikiInvariants
  import opened WikiServices

  const BROKEN_WIKILINKS := "broken_wikilinks"
  const DUPLICATE_SLUG_TITLE := "duplicate_slug_title"
  const UNSUPPORTED_CLAIMS := "unsupported_claims"

  /** The validators in the order they run. One that reads the clock stands for whatever
      issues it reports. */
  datatype Validator = BrokenWikilinks | UnsupportedClaims | DuplicateSlugTitle | Reporting(issues: seq<Issue>)

  function BrokenIssue(target: string): Issue {
    Issue(BROKEN_WIKILINKS, "error", "Broken wikilink target: [[" + target + "]]", target)
  }

  /** The slugs under which the tenant has no page, in order. */
  function Missing(pages: seq<Page>, tenant: string, slugs: seq<string>): seq<string> {
    if slugs == [] then []
    else
      var init, last := slugs[..|slugs| - 1], slugs[|slugs| - 1];
      Missing(pages, tenant, init) + (if FindPage(pages, tenant, last).None? then [last] else [])
  }

  function BrokenTargets(pages: seq<Page>, tenant: string, revision: Revision): seq<string> {
    if revision.format != MARKDOWN then [] else Missing(pages, tenant, LinkedSlugs(revision.content))
  }

  function BrokenIssues(targets: seq<string>): (r: seq<Issue>)
    ensures |r| == |targets| && forall i :: 0 <= i < |r| ==> r[i] == BrokenIssue(targets[i])
  {
    seq(|targets|, i requires 0 <= i < |targets| => BrokenIssue(targets[i]))
  }

  predicate OtherWithSlug(pages: seq<Page>, p: PageId)
    requires p < |pages|
  {
    exists q :: 0 <= q < |pages| && q != p && pages[q].tenantId == pages[p].tenantId && pages[q].slug == pages[p].slug
  }

  predicate OtherWithTitle(pages: seq<Page>, p: PageId)
    requires p < |pages|
  {
    exists q :: 0 <= q < |pages| && q != p && pages[q].tenantId == pages[p].tenantId
                && LowerAll(pages[q].title) == LowerAll(pages[p].title)
  }

  function DuplicateIssues(pages: seq<Page>, p: PageId): seq<Issue>
    requires p < |pages|
  {
    (if OtherWithSlug(pages, p)
     then [Issue(DUPLICATE_SLUG_TITLE, "error", "Duplicate page slug detected", pages[p].slug)] else [])
    + (if OtherWithTitle(pages, p)
       then [Issue(DUPLICATE_SLUG_TITLE, "warning", "Another page uses the same title", pages[p].title)] else [])
  }

  /** One issue for each claim on the revision whose support is unknown or missing. */
  function UnsupportedIssues(claims: seq<Claim>, tenant: string, p: PageId, r: Option<RevisionId>): seq<Issue> {
    if claims == [] then []
    else
      var init, last := claims[..|claims| - 1], claims[|claims| - 1];
      UnsupportedIssues(init, tenant, p, r) + ClaimIssues(last, tenant, p, r)
  }

  function ClaimIssues(c: Claim, tenant: string, p: PageId, r: Option<RevisionId>): seq<Issue> {
    if c.tenantId == tenant && c.pageId == p && Some(c.revisionId) == r && (c.support == "unknown" || c.support == "unsupported")
    then [Issue(UNSUPPORTED_CLAIMS, if c.support == "unsupported" then "error" else "warning",
                "Claim support has not been confirmed", c.support)]
    else []
  }

  function IssuesOf(db: Db, p: PageId, revision: Revision, validator: Validator): seq<Issue>
    requires p < |db.pages|
  {
    match validator
    case BrokenWikilinks => BrokenIssues(BrokenTargets(db.pages, db.pages[p].tenantId, revision))
    case UnsupportedClaims => UnsupportedIssues(db.claims, db.pages[p].tenantId, p, db.pages[p].current)
    case DuplicateSlugTitle => DuplicateIssues(db.pages, p)
    case Reporting(issues) => issues
  }

  function AllIssues(db: Db, p: PageId, revision: Revision, validators: seq<Validator>): seq<Issue>
    requires p < |db.pages|
  {
    if validators == [] then []
    else
      var last := |validators| - 1;
      AllIssues(db, p, revision, validators[..last]) + IssuesOf(db, p, revision, validators[last])
  }

  predicate IsResultOf(row: ValidationRow, tenant: string, p: PageId, r: RevisionId) {
    row.tenantId == tenant && row.pageId == p && row.revisionId == r
  }

  /** The stored results of a revision. */
  function ResultsOf(results: seq<ValidationRow>, tenant: string, p: PageId, r: RevisionId): seq<ValidationRow> {
    if results == [] then []
    else
      var last := |results| - 1;
      ResultsOf(results[..last], tenant, p, r) + (if IsResultOf(results[last], tenant, p, r) then [results[last]] else [])
  }

  function DropResults(results: seq<ValidationRow>, tenant: string, p: PageId, r: RevisionId): seq<ValidationRow> {
    if results == [] then []
    else
      var last := |results| - 1;
      DropResults(results[..last], tenant, p, r) + (if IsResultOf(results[last], tenant, p, r) then [] else [results[last]])
  }

  function NewResults(tenant: string, p: PageId, r: RevisionId, issues: seq<Issue>): (rows: seq<ValidationRow>)
    ensures |rows| == |issues| && forall i :: 0 <= i < |rows| ==> rows[i] == ValidationRow(tenant, p, r, issues[i])
  {
    seq(|issues|, i requires 0 <= i < |issues| => ValidationRow(tenant, p, r, issues[i]))
  }

  // ------------------------------------------------------------- the service

  class WikiValidationService {
    const repository: WikiRepository
    const validators: seq<Validator>

    constructor (repository: WikiRepository, validators: seq<Validator>)
      ensures this.repository == repository && this.validators == validators
    {
      this.repository := repository;
      this.validators := validators;
    }

    method RunValidators(p: PageId, revision: Revision) returns (issues: seq<Issue>)
      requires p < |repository.pages|
      ensures issues == AllIssues(repository.View(), p, revision, validators)
    {
      issues := [];
      for i := 0 to |validators|
        invariant issues == AllIssues(repository.View(), p, revision, validators[..i])
      {
        assert validators[..i + 1][..i] == validators[..i];
        var found := IssuesOf(repository.View(), p, revision, validators[i]);
        issues := issues + found;
      }
      assert validators[..|validators|] == validators;
    }

    /** Validates the current revision of a page and replaces its stored results. */
    method ValidatePage(tenant: string, slug: string) returns (r: Result<(PageId, RevisionId), WikiError>)
      modifies repository
      ensures match GetPage(old(repository.View()), tenant, slug)
              case Err(e) => r == Err(e) && repository.View() == old(repository.View())
              case Ok(found) =>
                if found.1.None? then r == Err(NoCurrentRevision(Slugify(slug))) && repository.View() == old(repository.View())
                else
                  var db, p, id := old(repository.View()), found.0, found.1.value;
                  var issues := AllIssues(db, p, db.revisions[id], validators);
                  && r == Ok((p, id))
                  && repository.View() == db.(results := DropResults(db.results, tenant, p, id) + NewResults(tenant, p, id, issues))
                  && ResultsOf(repository.results, tenant, p, id) == NewResults(tenant, p, id, issues)
                  && forall q: PageId, other: RevisionId :: (q, other) != (p, id) ==>
                       ResultsOf(repository.results, tenant, q, other) == ResultsOf(db.results, tenant, q, other)
    {
      if Slugify(slug) == "" {
        return Err(EmptySlug);
      }
      var page := FindPage(repository.pages, tenant, Slugify(slug));
      if page.None? {
        return Err(PageNotFound(Slugify(slug)));
      }
      var p := page.value;
      var current := CurrentRevision(repository.View(), p);
      if current.None? {
        return Err(NoCurrentRevision(Slugify(slug)));
      }
      var id := current.value;
      var issues := RunValidators(p, repository.revisions[id]);
      ghost var before := repository.results;
      repository.results := DropResults(repository.results, tenant, p, id);
      repository.results := repository.results + NewResults(tenant, p, id, issues);
      forall q: PageId, other: RevisionId
        ensures ResultsOf(repository.results, tenant, q, other) ==
                if (q, other) == (p, id) then NewResults(tenant, p, id, issues) else ResultsOf(before, tenant, q, other)
      {
        ResultsReplaced(before, tenant, p, id, issues, q, other);
      }
      return Ok((p, id));
    }
  }

  lemma {:induction false} ResultsConcat(a: seq<ValidationRow>, b: seq<ValidationRow>, tenant: string, p: PageId, r: RevisionId)
    ensures ResultsOf(a + b, tenant, p, r) == ResultsOf(a, tenant, p, r) + ResultsOf(b, tenant, p, r)
  {
    if b == [] {
      assert a + b == a;
    } else {
      assert (a + b)[..|a + b| - 1] == a + b[..|b| - 1];
      ResultsConcat(a, b[..|b| - 1], tenant, p, r);
    }
  }

  lemma {:induction false} ResultsAfterDrop(results: seq<ValidationRow>, tenant: string, p: PageId, r: RevisionId,
                                            q: PageId, other: RevisionId)
    ensures ResultsOf(DropResults(results, tenant, p, r), tenant, q, other) ==
            if (q, other) == (p, r) then [] else ResultsOf(results, tenant, q, other)
  {
    if results != [] {
      var last := results[|results| - 1];
      var kept := DropResults(results[..|results| - 1], tenant, p, r);
      ResultsAfterDrop(results[..|results| - 1], tenant, p, r, q, other);
      assert (kept + [last])[..|kept|] == kept;
      assert kept + [] == kept;
    }
  }

  lemma {:induction false} ResultsOfOne(rows: seq<ValidationRow>, tenant: string, p: PageId, r: RevisionId, q: PageId, other: RevisionId)
    requires forall i :: 0 <= i < |rows| ==> IsResultOf(rows[i], tenant, p, r)
    ensures ResultsOf(rows, tenant, q, other) == if (q, other) == (p, r) then rows else []
  {
    if rows != [] {
      var init, last := rows[..|rows| - 1], rows[|rows| - 1];
      ResultsOfOne(init, tenant, p, r, q, other);
      assert rows == init + [last];
    }
  }

  lemma ResultsOfNew(tenant: string, p: PageId, r: RevisionId, issues: seq<Issue>, q: PageId, other: RevisionId)
    ensures ResultsOf(NewResults(tenant, p, r, issues), tenant, q, other) ==
            if (q, other) == (p, r) then NewResults(tenant, p, r, issues) else []
  {
    ResultsOfOne(NewResults(tenant, p, r, issues), tenant, p, r, q, other);
  }

  lemma ResultsReplaced(results: seq<ValidationRow>, tenant: string, p: PageId, r: RevisionId, issues: seq<Issue>,
                        q: PageId, other: RevisionId)
    ensures ResultsOf(DropResults(results, tenant, p, r) + NewResults(tenant, p, r, issues), tenant, q, other) ==
            if (q, other) == (p, r) then NewResults(tenant, p, r, issues) else ResultsOf(results, tenant, q, other)
  {
    ResultsConcat(DropResults(results, tenant, p, r), NewResults(tenant, p, r, issues), tenant, q, other);
    ResultsAfterDrop(results, tenant, p, r, q, other);
    ResultsOfNew(tenant, p, r, issues, q, other);
    assert ResultsOf(results, tenant, q, other) + [] == ResultsOf(results, tenant, q, other);
  }

  // ---------------------------------------------------------------- a run

  lemma {:induction false} AllIssuesConcat(db: Db, p: PageId, revision: Revision, a: seq<Validator>, b: seq<Validator>)
    requires p < |db.pages|
    ensures AllIssues(db, p, revision, a + b) == AllIssues(db, p, revision, a) + AllIssues(db, p, revision, b)
  {
    if b == [] {
      assert a + b == a;
    } else {
      var init, last := b[..|b| - 1], b[|b| - 1];
      assert (a + b)[..|a + b| - 1] == a + init && (a + b)[|a + b| - 1] == last;
      AllIssuesConcat(db, p, revision, a, init);
      ConcatAssoc(AllIssues(db, p, revision, a), AllIssues(db, p, revision, init), IssuesOf(db, p, revision, last));
    }
  }

  /** A run reports what each validator reports, in the order of the validators. */
  lemma RunReportsInOrder(db: Db, p: PageId, revision: Revision, before: seq<Validator>, v: Validator, after: seq<Validator>)
    requires p < |db.pages|
    ensures AllIssues(db, p, revision, before + [v] + after) ==
            AllIssues(db, p, revision, before) + IssuesOf(db, p, revision, v) + AllIssues(db, p, revision, after)
    ensures AllIssues(db, p, revision, []) == []
  {
    AllIssuesConcat(db, p, revision, before + [v], after);
    AllIssuesConcat(db, p, revision, before, [v]);
    assert [v][..0] == [];
  }

  ghost predicate HasError(issues: seq<Issue>) { exists i :: 0 <= i < |issues| && issues[i].severity == "error" }

  lemma HasErrorConcat(a: seq<Issue>, b: seq<Issue>)
    ensures HasError(a + b) <==> HasError(a) || HasError(b)
  {
    assert forall i :: 0 <= i < |a| ==> (a + b)[i] == a[i];
    assert forall i :: 0 <= i < |b| ==> (a + b)[|a| + i] == b[i];
  }

  predicate IsOn(c: Claim, tenant: string, p: PageId, r: Option<RevisionId>) {
    c.tenantId == tenant && c.pageId == p && Some(c.revisionId) == r
  }

  predicate Unconfirmed(c: Claim) { c.support == "unknown" || c.support == "unsupported" }

  /** The validator of claims has nothing to report exactly when every claim on the current revision
      has been confirmed; and it reports an error exactly when one of them is said to be unsupported. */
  lemma {:induction false} UnsupportedIff(claims: seq<Claim>, tenant: string, p: PageId, r: Option<RevisionId>)
    ensures var issues := UnsupportedIssues(claims, tenant, p, r);
            && (issues == [] <==> forall c :: c in claims && IsOn(c, tenant, p, r) ==> !Unconfirmed(c))
            && (HasError(issues) <==> exists c :: c in claims && IsOn(c, tenant, p, r) && c.support == "unsupported")
            && |issues| <= |claims|
  {
    if claims != [] {
      var init, last := claims[..|claims| - 1], claims[|claims| - 1];
      assert claims == init + [last];
      UnsupportedIff(init, tenant, p, r);
      var before := UnsupportedIssues(init, tenant, p, r);
      var own := ClaimIssues(last, tenant, p, r);
      assert forall c :: c in claims <==> c in init || c == last;
      assert own == [] <==> !(IsOn(last, tenant, p, r) && Unconfirmed(last));
      assert last in claims;
      HasErrorConcat(before, own);
      if |own| == 1 && last.support == "unsupported" {
        assert own[0].severity == "error";
      }
    }
  }

  // ------------------------------------------------------------- broken links

  lemma {:induction false} MissingShape(pages: seq<Page>, tenant: string, slugs: seq<string>)
    requires Distinct(slugs)
    ensures forall s :: s in Missing(pages, tenant, slugs) <==> s in slugs && FindPage(pages, tenant, s).None?
    ensures Distinct(Missing(pages, tenant, slugs)) && InOrder(Missing(pages, tenant, slugs), slugs)
  {
    if slugs != [] {
      var init, last := slugs[..|slugs| - 1], slugs[|slugs| - 1];
      assert slugs == init + [last];
      assert forall i :: 0 <= i < |init| ==> init[i] == slugs[i];
      MissingShape(pages, tenant, init);
      var m, m' := Missing(pages, tenant, init), Missing(pages, tenant, slugs);
      forall i, j, p, q | 0 <= i < j < |m'| && 0 <= p < |slugs| && 0 <= q < |slugs| && slugs[p] == m'[i] && slugs[q] == m'[j]
        ensures p < q
      {
        assert m[i] in init;
        assert p < |init| && init[p] == m[i];
        if j < |m| {
          assert m[j] in init;
          assert q < |init| && init[q] == m[j];
        }
      }
    }
  }

  /** Validation of broken wikilinks is sound and complete: the reported targets are
      exactly the distinct wikilinks of the Markdown under which the tenant has no page,
      in first-occurrence order. */
  lemma BrokenTargetsAreExact(db: Db, tenant: string, revision: Revision)
    requires revision.format == MARKDOWN
    ensures var broken := BrokenTargets(db.pages, tenant, revision);
            && (forall s :: s in broken <==> s in LinkedSlugs(revision.content) && FindPage(db.pages, tenant, s).None?)
            && Distinct(broken) && InOrder(broken, LinkedSlugs(revision.content))
    ensures forall s :: FindPage(db.pages, tenant, s).None? <==>
              forall q :: 0 <= q < |db.pages| && db.pages[q].tenantId == tenant ==> db.pages[q].slug != s
  {
    DedupeMembers(LinkSlugs(revision.content));
    MissingShape(db.pages, tenant, LinkedSlugs(revision.content));
  }

  /** Each broken target is reported as one error that names it, in order; text that is not
      Markdown has none. */
  lemma BrokenTargetsAreReported(db: Db, p: PageId, revision: Revision)
    requires p < |db.pages|
    ensures var issues, broken := IssuesOf(db, p, revision, BrokenWikilinks), BrokenTargets(db.pages, db.pages[p].tenantId, revision);
            && |issues| == |broken|
            && (forall i :: 0 <= i < |issues| ==>
                  issues[i] == Issue("broken_wikilinks", "error", "Broken wikilink target: [[" + broken[i] + "]]", broken[i]))
            && (revision.format != "markdown" ==> issues == [])
  {
  }

  lemma DuplicateSlugUnreachable(db: Db, p: PageId)
    requires StoreInv(db) && p < |db.pages|
    ensures !OtherWithSlug(db.pages, p)
  {
  }

  /** After any run of the service from the empty store, a duplicate is reported exactly for a
      page that shares its title with another page of the tenant, and only as a warning. */
  lemma OnlyTitlesAreDuplicates(ops: seq<Op>, p: PageId, revision: Revision)
    requires p < |PerformAll(EMPTY, ops).pages|
    ensures var db := PerformAll(EMPTY, ops);
            var issues := IssuesOf(db, p, revision, DuplicateSlugTitle);
            var page := db.pages[p];
            && (issues != [] <==> exists q :: 0 <= q < |db.pages| && q != p && db.pages[q].tenantId == page.tenantId
                                              && LowerAll(db.pages[q].title) == LowerAll(page.title))
            && |issues| <= 1
            && forall i :: 0 <= i < |issues| ==>
                 issues[i] == Issue("duplicate_slug_title", "warning", "Another page uses the same title", page.title)
  {
    EmptyStoreIsValid();
    RunKeeps(EMPTY, ops);
    TitlesOfValidStore(PerformAll(EMPTY, ops), p, revision);
  }

  lemma TitlesOfValidStore(db: Db, p: PageId, revision: Revision)
    requires StoreInv(db) && p < |db.pages|
    ensures IssuesOf(db, p, revision, DuplicateSlugTitle) ==
            if OtherWithTitle(db.pages, p)
            then [Issue("duplicate_slug_title", "warning", "Another page uses the same title", db.pages[p].title)] else []
  {
    DuplicateSlugUnreachable(db, p);
  }

  // ---------------------------------------------------------------- repairing

  /** Saving pages never takes a page away or renames it. */
  ghost predicate Grown(db: Db, db': Db, tenant: string, saved: string) {
    && |db.pages| <= |db'.pages|
    && (forall q :: 0 <= q < |db.pages| ==>
          && db'.pages[q].tenantId == db.pages[q].tenantId && db'.pages[q].slug == db.pages[q].slug
          && (db.pages[q].tenantId != tenant || db.pages[q].slug != saved ==> db'.pages[q] == db.pages[q]))
    && FindPage(db'.pages, tenant, saved).Some?
    && db.revisions <= db'.revisions
  }

  lemma SavePageGrows(db: Db, input: PageInput, slug: string)
    requires StoreInv(db) && input.slug == Some(slug) && slug != "" && IsSlug(slug)
    ensures Grown(db, Perform(db, SavePage(input)), input.tenantId, slug)
    ensures StoreInv(Perform(db, SavePage(input)))
  {
    SlugifyNormalForm(slug);
    SavePageKeeps(db, input);
    PreparePageKeeps(db, input, slug);
    var (db1, p) := PreparePage(db, input, slug);
    ReviseShape(db1, p, input.format, input.content, input.summary, input.authorType);
    var db' := Perform(db, SavePage(input));
    assert db'.pages[p].slug == slug && db'.pages[p].tenantId == input.tenantId;
    FoundPageIs(db', p);
  }

  function SaveAll(inputs: seq<PageInput>): (ops: seq<Op>)
    ensures |ops| == |inputs| && forall i :: 0 <= i < |ops| ==> ops[i] == SavePage(inputs[i])
  {
    seq(|inputs|, i requires 0 <= i < |inputs| => SavePage(inputs[i]))
  }

  lemma FoundStaysFound(db: Db, db': Db, tenant: string, saved: string, s: string)
    requires Grown(db, db', tenant, saved) && FindPage(db.pages, tenant, s).Some?
    ensures FindPage(db'.pages, tenant, s).Some?
  {
    var q := FindPage(db.pages, tenant, s).value;
    assert db'.pages[q].slug == s && db'.pages[q].tenantId == tenant;
  }

  /** The inputs save pages of a tenant under the given slugs, one each. */
  ghost predicate SavesUnder(inputs: seq<PageInput>, tenant: string, slugs: seq<string>) {
    && |inputs| == |slugs|
    && forall i :: 0 <= i < |slugs| ==>
         slugs[i] != "" && IsSlug(slugs[i]) && inputs[i].tenantId == tenant && inputs[i].slug == Some(slugs[i])
  }

  lemma SaveAllStep(db: Db, inputs: seq<PageInput>)
    requires inputs != []
    ensures PerformAll(db, SaveAll(inputs)) == PerformAll(Perform(db, SavePage(inputs[0])), SaveAll(inputs[1..]))
  {
    assert SaveAll(inputs)[1..] == SaveAll(inputs[1..]);
  }

  lemma {:induction false} SaveAllGrows(db: Db, tenant: string, slugs: seq<string>, inputs: seq<PageInput>, p: PageId)
    requires StoreInv(db) && p < |db.pages| && db.pages[p].slug !in slugs
    requires SavesUnder(inputs, tenant, slugs)
    ensures var db' := PerformAll(db, SaveAll(inputs));
            && StoreInv(db') && p < |db'.pages| && db'.pages[p] == db.pages[p] && db.revisions <= db'.revisions
            && (forall s :: FindPage(db.pages, tenant, s).Some? || s in slugs ==> FindPage(db'.pages, tenant, s).Some?)
    decreases |slugs|
  {
    if slugs != [] {
      var db1 := Perform(db, SavePage(inputs[0]));
      var db' := PerformAll(db1, SaveAll(inputs[1..]));
      SavePageGrows(db, inputs[0], slugs[0]);
      SaveAllStep(db, inputs);
      assert slugs == [slugs[0]] + slugs[1..];
      assert SavesUnder(inputs[1..], tenant, slugs[1..]);
      assert db1.pages[p] == db.pages[p];
      SaveAllGrows(db1, tenant, slugs[1..], inputs[1..], p);
      forall s | FindPage(db.pages, tenant, s).Some? || s in slugs ensures FindPage(db'.pages, tenant, s).Some? {
        if FindPage(db.pages, tenant, s).Some? {
          FoundStaysFound(db, db1, tenant, slugs[0], s);
        }
      }
    }
  }

  lemma {:induction false} NothingMissing(pages: seq<Page>, tenant: string, slugs: seq<string>)
    requires forall i :: 0 <= i < |slugs| ==> FindPage(pages, tenant, slugs[i]).Some?
    ensures Missing(pages, tenant, slugs) == []
  {
    if slugs != [] {
      NothingMissing(pages, tenant, slugs[..|slugs| - 1]);
    }
  }

  /** Creating a page under each reported slug, with any content, makes the next validation
      of the page report no broken link: its current text is unchanged and every target exists. */
  lemma CreatingReportedPagesRepairs(db: Db, p: PageId, inputs: seq<PageInput>)
    requires StoreInv(db) && p < |db.pages|
    requires db.pages[p].current.Some? && db.pages[p].current.value < |db.revisions|
    requires var broken := BrokenTargets(db.pages, db.pages[p].tenantId, db.revisions[db.pages[p].current.value]);
             && |inputs| == |broken|
             && forall i :: 0 <= i < |inputs| ==> inputs[i].tenantId == db.pages[p].tenantId && inputs[i].slug == Some(broken[i])
    ensures var db' := PerformAll(db, SaveAll(inputs));
            && p < |db'.pages| && db'.pages[p] == db.pages[p] && db'.pages[p].current.value < |db'.revisions|
            && db'.revisions[db'.pages[p].current.value] == db.revisions[db.pages[p].current.value]
            && BrokenTargets(db'.pages, db'.pages[p].tenantId, db'.revisions[db'.pages[p].current.value]) == []
  {
    var tenant, revision := db.pages[p].tenantId, db.revisions[db.pages[p].current.value];
    var broken := BrokenTargets(db.pages, tenant, revision);
    var db' := PerformAll(db, SaveAll(inputs));
    if revision.format == MARKDOWN {
      BrokenTargetsAreExact(db, tenant, revision);
      forall i | 0 <= i < |broken| ensures broken[i] != "" && IsSlug(broken[i]) && broken[i] != db.pages[p].slug {
        assert broken[i] in broken;
        LinkedSlugsAreSlugs(revision.content, broken[i]);
        FoundPageIs(db, p);
      }
      SaveAllGrows(db, tenant, broken, inputs, p);
      var linked := LinkedSlugs(revision.content);
      forall i | 0 <= i < |linked| ensures FindPage(db'.pages, tenant, linked[i]).Some? {
        assert linked[i] in linked;
      }
      NothingMissing(db'.pages, tenant, linked);
    } else {
      assert SaveAll(inputs) == [];
    }
  }
}
