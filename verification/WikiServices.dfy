/** The wiki repository and service as the objects that update the tables, each
    method tied to the store operation it performs. */
module WikiServices {
  import opened Sequences
  import opened Slugs
  import opened Wikilinks
  import opened WikiStore
  import opened WikiInvariants

  /** `_dedupe_slugs`. */
  method DedupeSlugs(toSlugs: seq<string>) returns (deduped: seq<string>)
    ensures deduped == Dedupe(toSlugs)
  {
    var seen: set<string> := {};
    deduped := [];
    for i := 0 to |toSlugs|
      invariant deduped == Dedupe(toSlugs[..i])
      invariant forall x :: x in seen <==> x in toSlugs[..i]
    {
      assert toSlugs[..i + 1] == toSlugs[..i] + [toSlugs[i]];
      DedupeSnoc(toSlugs[..i], toSlugs[i]);
      if toSlugs[i] in seen {
        continue;
      }
      seen := seen + {toSlugs[i]};
      deduped := deduped + [toSlugs[i]];
    }
    assert toSlugs[..|toSlugs|] == toSlugs;
  }

  class WikiRepository {
    var pages: seq<Page>
    var revisions: seq<Revision>
    var links: seq<Link>
    var claims: seq<Claim>
    var sources: seq<ClaimSource>
    var results: seq<ValidationRow>
    var jobs: seq<CompileJob>

    /** Every status written to a compile job, in order of writing. */
    ghost var jobTrail: seq<(JobId, JobStatus)>

    function View(): Db
      reads this
    {
      Db(pages, revisions, links, claims, sources, results, jobs)
    }

    constructor ()
      ensures View() == EMPTY && jobTrail == []
    {
      pages, revisions, links, claims, sources, results, jobs := [], [], [], [], [], [], [];
      jobTrail := [];
    }

    method CreateCompileJob(tenant: string, source: string, target: Option<string>) returns (id: JobId)
      modifies `jobs, `jobTrail
      ensures id == |old(jobs)| && jobs == old(jobs) + [CompileJob(tenant, source, target, Pending, None)]
      ensures jobTrail == old(jobTrail) + [(id, Pending)]
    {
      id := |jobs|;
      jobs := jobs + [CompileJob(tenant, source, target, Pending, None)];
      jobTrail := jobTrail + [(id, Pending)];
    }

    method UpdateCompileJobStatus(id: JobId, status: JobStatus, error: Option<string>) returns (found: bool)
      modifies `jobs, `jobTrail
      ensures found <==> id < |old(jobs)|
      ensures !found ==> jobs == old(jobs) && jobTrail == old(jobTrail)
      ensures found ==> jobs == old(jobs)[id := old(jobs)[id].(status := status, error := error)] &&
                        jobTrail == old(jobTrail) + [(id, status)]
    {
      found := id < |jobs|;
      if found {
        jobs := jobs[id := jobs[id].(status := status, error := error)];
        jobTrail := jobTrail + [(id, status)];
      }
    }

    method CreatePage(tenant: string, slug: string, title: string, pageType: string, status: string) returns (p: PageId)
      modifies `pages
      ensures p == |old(pages)|
      ensures View() == old(View()).(pages := old(pages) + [Page(tenant, slug, title, pageType, status, None)])
    {
      p := |pages|;
      pages := pages + [Page(tenant, slug, title, pageType, status, None)];
    }

    method UpsertPageRevision(p: PageId, no: Option<nat>, format: string, content: string,
                              summary: Option<string>, author: string, setCurrent: bool) returns (id: RevisionId)
      requires p < |pages|
      modifies `pages, `revisions
      ensures (View(), id) == UpsertRevision(old(View()), p, no, format, content, summary, author, setCurrent)
    {
      var number: nat;
      if no.None? {
        number := MaxNo(revisions, p) + 1;
      } else {
        number := no.value;
      }
      var found := FindRevision(revisions, p, number);
      if found.None? {
        id := |revisions|;
        revisions := revisions + [Revision(p, number, format, content, summary, author)];
      } else {
        id := found.value;
        revisions := revisions[id :=
          revisions[id].(format := format, content := content, summary := summary, authorType := author)];
      }
      if setCurrent {
        pages := pages[p := pages[p].(current := Some(id))];
      }
    }

    method ReplaceLinksForPage(tenant: string, p: PageId, toSlugs: seq<string>)
      modifies `links
      ensures View() == old(View()).(links := ReplaceLinks(old(links), tenant, p, toSlugs))
    {
      links := DropLinks(links, tenant, p);
      var deduped := DedupeSlugs(toSlugs);
      links := links + NewLinks(tenant, p, deduped);
    }

    method CreateClaim(tenant: string, p: PageId, r: RevisionId, text: string, support: string, confidence: Option<real>)
      returns (id: ClaimId)
      modifies `claims
      ensures id == |old(claims)|
      ensures View() == old(View()).(claims := old(claims) + [Claim(tenant, p, r, text, support, confidence)])
    {
      id := |claims|;
      claims := claims + [Claim(tenant, p, r, text, support, confidence)];
    }

    method AttachClaimSource(claim: ClaimId, input: ClaimSourceInput)
      modifies `sources
      ensures View() == old(View()).(sources := old(sources) + [ClaimSource(claim, input)])
    {
      sources := sources + [ClaimSource(claim, input)];
    }

    method ListBacklinks(tenant: string, slug: string) returns (found: seq<PageId>)
      ensures found == Backlinks(View(), tenant, slug)
      ensures StoreInv(View()) ==> Distinct(found)
      ensures StoreInv(View()) ==>
                forall p: nat :: p in found <==> p < |pages| && pages[p].tenantId == tenant && slug in LatestTargets(View(), p)
    {
      found := [];
      for i := 0 to |links|
        invariant found == BacklinksIn(links[..i], pages, tenant, slug)
      {
        assert links[..i + 1][..i] == links[..i];
        var l := links[i];
        if l.tenantId == tenant && l.toSlug == slug && l.fromPage < |pages| && pages[l.fromPage].tenantId == tenant {
          found := found + [l.fromPage];
        }
      }
      assert links[..|links|] == links;
      if StoreInv(View()) {
        BacklinksAreExact(View(), tenant, slug);
      }
    }
  }

  class WikiService {
    const repository: WikiRepository

    constructor (repository: WikiRepository)
      ensures this.repository == repository
    {
      this.repository := repository;
    }

    method CreateOrUpdatePage(input: PageInput) returns (r: Result<Detail, WikiError>)
      modifies repository`pages, repository`revisions, repository`links
      ensures match WikiStore.CreateOrUpdatePage(old(repository.View()), input)
              case Err(e) => r == Err(e) && repository.View() == old(repository.View())
              case Ok(done) => r == Ok(done.1) && repository.View() == done.0
      ensures old(StoreInv(repository.View())) ==>
                StoreInv(repository.View()) && old(repository.revisions) <= repository.revisions
    {
      ghost var before := repository.View();
      if StoreInv(before) {
        SavePageKeeps(before, input);
      }
      var slug := Slugify(if input.slug.Some? && input.slug.value != "" then input.slug.value else input.title);
      if slug == "" {
        return Err(EmptySlug);
      }
      var p := PreparePageRow(input, slug);
      var id := RevisePage(p, input.format, input.content, input.summary, input.authorType);
      return Ok(Detail(p, id));
    }

    method PreparePageRow(input: PageInput, slug: string) returns (p: PageId)
      modifies repository`pages
      ensures (repository.View(), p) == PreparePage(old(repository.View()), input, slug)
    {
      var found := FindPage(repository.pages, input.tenantId, slug);
      if found.None? {
        p := repository.CreatePage(input.tenantId, slug, input.title, input.pageType,
                                   if input.status.Some? && input.status.value != "" then input.status.value else "draft");
      } else {
        p := found.value;
        repository.pages := repository.pages[p := repository.pages[p].(title := input.title, pageType := input.pageType)];
        if input.status.Some? {
          repository.pages := repository.pages[p := repository.pages[p].(status := input.status.value)];
        }
        var renamed := old(repository.pages)[p].(title := input.title, pageType := input.pageType);
        assert repository.pages == old(repository.pages)[p := if input.status.Some? then renamed.(status := input.status.value) else renamed];
      }
    }

    method CreateRevision(tenant: string, slug: string, format: string, content: string,
                          summary: Option<string>, author: string) returns (r: Result<Detail, WikiError>)
      modifies repository`pages, repository`revisions, repository`links
      ensures match WikiStore.CreateRevision(old(repository.View()), tenant, slug, format, content, summary, author)
              case Err(e) => r == Err(e) && repository.View() == old(repository.View())
              case Ok(done) => r == Ok(done.1) && repository.View() == done.0
      ensures old(StoreInv(repository.View())) ==>
                StoreInv(repository.View()) && old(repository.revisions) <= repository.revisions
    {
      if StoreInv(repository.View()) {
        SaveRevisionKeeps(repository.View(), tenant, slug, format, content, summary, author);
      }
      var p :- FindRequiredPage(tenant, slug);
      var id := RevisePage(p, format, content, summary, author);
      return Ok(Detail(p, id));
    }

    method PublishPage(tenant: string, slug: string, no: Option<nat>) returns (r: Result<Detail, WikiError>)
      modifies repository`pages
      ensures match WikiStore.PublishPage(old(repository.View()), tenant, slug, no)
              case Err(e) => r == Err(e) && repository.View() == old(repository.View())
              case Ok(done) => r == Ok(done.1) && repository.View() == done.0
      ensures old(StoreInv(repository.View())) ==> StoreInv(repository.View())
    {
      ghost var db := repository.View();
      if StoreInv(db) {
        PublishKeeps(db, tenant, slug, no);
      }
      var p :- FindRequiredPage(tenant, slug);
      var id :- ResolveRevision(p, Slugify(slug), no);
      repository.pages := repository.pages[p := repository.pages[p].(current := Some(id))];
      repository.pages := repository.pages[p := repository.pages[p].(status := "published")];
      assert repository.pages == db.pages[p := db.pages[p].(current := Some(id), status := "published")];
      return Ok(Detail(p, id));
    }

    /** The page's current revision, or the numbered one. */
    method ResolveRevision(p: PageId, slug: string, no: Option<nat>) returns (r: Result<RevisionId, WikiError>)
      requires p < |repository.pages|
      ensures var id := if no.Some? then FindRevision(repository.revisions, p, no.value) else CurrentRevision(repository.View(), p);
              r == if id.Some? then Ok(id.value) else if no.Some? then Err(NoSuchRevision(slug, no.value)) else Err(NoCurrentRevision(slug))
    {
      if no.None? {
        var id := CurrentRevision(repository.View(), p);
        return if id.Some? then Ok(id.value) else Err(NoCurrentRevision(slug));
      }
      var id := FindRevision(repository.revisions, p, no.value);
      return if id.Some? then Ok(id.value) else Err(NoSuchRevision(slug, no.value));
    }

    method AddClaimWithSources(tenant: string, slug: string, text: string, inputs: seq<ClaimSourceInput>,
                               support: string, confidence: Option<real>) returns (r: Result<ClaimId, WikiError>)
      modifies repository`claims, repository`sources
      ensures match AddClaim(old(repository.View()), tenant, slug, text, inputs, support, confidence)
              case Err(e) => r == Err(e) && repository.View() == old(repository.View())
              case Ok(done) => r == Ok(done.1) && repository.View() == done.0
      ensures old(StoreInv(repository.View())) ==>
                StoreInv(repository.View()) && repository.revisions == old(repository.revisions) && repository.links == old(repository.links)
    {
      if StoreInv(repository.View()) {
        SaveClaimKeeps(repository.View(), tenant, slug, text, inputs, support, confidence);
      }
      var p :- FindRequiredPage(tenant, slug);
      var current := CurrentRevision(repository.View(), p);
      if current.None? {
        return Err(NoCurrentRevision(Slugify(slug)));
      }
      var id := repository.CreateClaim(tenant, p, current.value, text, support, confidence);
      AttachAll(id, inputs);
      return Ok(id);
    }

    method AttachAll(id: ClaimId, inputs: seq<ClaimSourceInput>)
      modifies repository`sources
      ensures repository.View() == old(repository.View()).(sources := old(repository.sources) + NewSources(id, inputs))
    {
      ghost var before := repository.View();
      assert before.sources + NewSources(id, []) == before.sources;
      for i := 0 to |inputs|
        invariant repository.View() == before.(sources := before.sources + NewSources(id, inputs[..i]))
      {
        assert before.sources + NewSources(id, inputs[..i + 1])
            == before.sources + NewSources(id, inputs[..i]) + [ClaimSource(id, inputs[i])];
        repository.AttachClaimSource(id, inputs[i]);
      }
      assert inputs[..|inputs|] == inputs;
    }

    method GetBacklinks(tenant: string, slug: string) returns (r: Result<seq<PageId>, WikiError>)
      ensures match RequireSlug(slug)
              case Err(e) => r == Err(e)
              case Ok(s) => r == Ok(Backlinks(repository.View(), tenant, s))
    {
      if Slugify(slug) == "" {
        return Err(EmptySlug);
      }
      var found := repository.ListBacklinks(tenant, Slugify(slug));
      return Ok(found);
    }

    method FindRequiredPage(tenant: string, slug: string) returns (r: Result<PageId, WikiError>)
      ensures match RequireSlug(slug)
              case Err(e) => r == Err(e)
              case Ok(s) => r == RequirePage(repository.View(), tenant, s)
      ensures r.Ok? ==> r.value < |repository.pages|
    {
      if Slugify(slug) == "" {
        return Err(EmptySlug);
      }
      var found := FindPage(repository.pages, tenant, Slugify(slug));
      if found.None? {
        return Err(PageNotFound(Slugify(slug)));
      }
      return Ok(found.value);
    }

    method RevisePage(p: PageId, format: string, content: string, summary: Option<string>, author: string)
      returns (id: RevisionId)
      requires p < |repository.pages|
      modifies repository`pages, repository`revisions, repository`links
      ensures (repository.View(), id) == Revise(old(repository.View()), p, format, content, summary, author)
    {
      ghost var tenant := repository.pages[p].tenantId;
      id := repository.UpsertPageRevision(p, None, format, content, summary, author, true);
      var slugs := [];
      if format == MARKDOWN {
        slugs := ExtractWikilinks(content);
      }
      repository.ReplaceLinksForPage(repository.pages[p].tenantId, p, slugs);
    }
  }
}
