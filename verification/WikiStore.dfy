/** The wiki store: pages, append-only revisions, the link index, claims and their
    sources, validation results and compile jobs, and what each operation of the
    wiki service does to them. Row ids are positions; a failed operation changes
    nothing, because its transaction is rolled back. */
module WikiStore {
  import opened Sequences
  import opened Slugs
  import opened Wikilinks
  import Json

  const MARKDOWN := "markdown"
  const WIKILINK := "wikilink"

  type PageId = nat
  type RevisionId = nat
  type ClaimId = nat
  type JobId = nat

  datatype Page = Page(tenantId: string, slug: string, title: string, pageType: string, status: string,
                       current: Option<RevisionId>)

  datatype Revision = Revision(pageId: PageId, no: nat, format: string, content: string,
                               summary: Option<string>, authorType: string)

  datatype Link = Link(tenantId: string, fromPage: PageId, toSlug: string, linkType: string)

  datatype Claim = Claim(tenantId: string, pageId: PageId, revisionId: RevisionId, text: string,
                         support: string, confidence: Option<real>)

  datatype ClaimSourceInput = ClaimSourceInput(
    sourceId: string, documentUri: Option<string>, chunkId: Option<string>, entityId: Option<string>,
    relationId: Option<string>, assetUrl: Option<string>, pageNo: Option<int>, bbox: Option<Json.Json>,
    quote: Option<string>, locator: Json.Json)

  datatype ClaimSource = ClaimSource(claimId: ClaimId, input: ClaimSourceInput)

  datatype Issue = Issue(validator: string, severity: string, message: string, target: string)

  datatype ValidationRow = ValidationRow(tenantId: string, pageId: PageId, revisionId: RevisionId, issue: Issue)

  datatype JobStatus = Pending | Processing | Succeeded | Failed

  datatype CompileJob = CompileJob(tenantId: string, sourceId: string, targetSlug: Option<string>,
                                   status: JobStatus, error: Option<string>)

  datatype Db = Db(pages: seq<Page>, revisions: seq<Revision>, links: seq<Link>, claims: seq<Claim>,
                   sources: seq<ClaimSource>, results: seq<ValidationRow>, jobs: seq<CompileJob>)

  const EMPTY := Db([], [], [], [], [], [], [])

  datatype WikiError =
    | EmptySlug
    | PageNotFound(slug: string)
    | NoCurrentRevision(slug: string)
    | NoSuchRevision(slug: string, no: nat)

  /** A page with the revision the call returned. */
  datatype Detail = Detail(page: PageId, revision: RevisionId)

  // -------------------------------------------------------------- repository

  function FindPage(pages: seq<Page>, tenant: string, slug: string): (r: Option<PageId>)
    ensures r.Some? ==> r.value < |pages| && pages[r.value].tenantId == tenant && pages[r.value].slug == slug
    ensures r.None? ==> forall p :: 0 <= p < |pages| ==> pages[p].tenantId != tenant || pages[p].slug != slug
  {
    if pages == [] then None
    else
      var last := |pages| - 1;
      if pages[last].tenantId == tenant && pages[last].slug == slug then Some(last)
      else FindPage(pages[..last], tenant, slug)
  }

  /** The revisions of a page, oldest first. */
  function History(revisions: seq<Revision>, p: PageId): seq<Revision> {
    if revisions == [] then []
    else
      var init, last := revisions[..|revisions| - 1], revisions[|revisions| - 1];
      History(init, p) + (if last.pageId == p then [last] else [])
  }

  /** The highest revision number of a page, or 0. */
  function MaxNo(revisions: seq<Revision>, p: PageId): nat {
    if revisions == [] then 0
    else
      var init, last := revisions[..|revisions| - 1], revisions[|revisions| - 1];
      var m := MaxNo(init, p);
      if last.pageId == p && last.no > m then last.no else m
  }

  function FindRevision(revisions: seq<Revision>, p: PageId, no: nat): (r: Option<RevisionId>)
    ensures r.Some? ==> r.value < |revisions| && revisions[r.value].pageId == p && revisions[r.value].no == no
    ensures r.None? ==> forall i :: 0 <= i < |revisions| ==> revisions[i].pageId != p || revisions[i].no != no
  {
    if revisions == [] then None
    else
      var last := |revisions| - 1;
      if revisions[last].pageId == p && revisions[last].no == no then Some(last)
      else FindRevision(revisions[..last], p, no)
  }

  /** `upsert_page_revision`: without a number, appends the next one; with a number that
      the page has, overwrites that revision in place. */
  function UpsertRevision(db: Db, p: PageId, no: Option<nat>, format: string, content: string,
                          summary: Option<string>, author: string, setCurrent: bool): (Db, RevisionId)
    requires p < |db.pages|
  {
    var number := if no.Some? then no.value else MaxNo(db.revisions, p) + 1;
    var revision := Revision(p, number, format, content, summary, author);
    var found := FindRevision(db.revisions, p, number);
    var id := if found.Some? then found.value else |db.revisions|;
    var revisions := if found.Some? then db.revisions[id := revision] else db.revisions + [revision];
    var pages := if setCurrent then db.pages[p := db.pages[p].(current := Some(id))] else db.pages;
    (db.(pages := pages, revisions := revisions), id)
  }

  function NewLinks(tenant: string, p: PageId, slugs: seq<string>): (r: seq<Link>)
    ensures |r| == |slugs| && forall i :: 0 <= i < |r| ==> r[i] == Link(tenant, p, slugs[i], WIKILINK)
  {
    seq(|slugs|, i requires 0 <= i < |slugs| => Link(tenant, p, slugs[i], WIKILINK))
  }

  /** The link rows of a page. */
  function LinksFrom(links: seq<Link>, p: PageId): seq<Link> {
    if links == [] then []
    else
      var init, last := links[..|links| - 1], links[|links| - 1];
      LinksFrom(init, p) + (if last.fromPage == p then [last] else [])
  }

  /** The rows left when those of a tenant's page are deleted. */
  function DropLinks(links: seq<Link>, tenant: string, p: PageId): seq<Link> {
    if links == [] then []
    else
      var init, last := links[..|links| - 1], links[|links| - 1];
      DropLinks(init, tenant, p) + (if last.tenantId == tenant && last.fromPage == p then [] else [last])
  }

  function ReplaceLinks(links: seq<Link>, tenant: string, p: PageId, slugs: seq<string>): seq<Link> {
    DropLinks(links, tenant, p) + NewLinks(tenant, p, Dedupe(slugs))
  }

  /** The pages that link to a slug within a tenant, one entry for each link row. */
  function Backlinks(db: Db, tenant: string, slug: string): seq<PageId> {
    BacklinksIn(db.links, db.pages, tenant, slug)
  }

  function BacklinksIn(links: seq<Link>, pages: seq<Page>, tenant: string, slug: string): seq<PageId> {
    if links == [] then []
    else
      var init, last := links[..|links| - 1], links[|links| - 1];
      BacklinksIn(init, pages, tenant, slug)
      + (if last.tenantId == tenant && last.toSlug == slug && last.fromPage < |pages| && pages[last.fromPage].tenantId == tenant
         then [last.fromPage] else [])
  }

  // ----------------------------------------------------------------- service

  function RequireSlug(value: string): Result<string, WikiError> {
    if Slugify(value) == "" then Err(EmptySlug) else Ok(Slugify(value))
  }

  function RequirePage(db: Db, tenant: string, slug: string): (r: Result<PageId, WikiError>)
    ensures r.Ok? ==> r.value < |db.pages|
  {
    match FindPage(db.pages, tenant, slug)
    case None => Err(PageNotFound(slug))
    case Some(p) => Ok(p)
  }

  /** The current revision of a page, if it is a stored one. */
  function CurrentRevision(db: Db, p: PageId): (r: Option<RevisionId>)
    requires p < |db.pages|
    ensures r.Some? ==> r.value < |db.revisions|
  {
    var current := db.pages[p].current;
    if current.Some? && current.value < |db.revisions| then current else None
  }

  /** Appends a revision, makes it current, and rebuilds the page's links from it. */
  function Revise(db: Db, p: PageId, format: string, content: string, summary: Option<string>, author: string): (Db, RevisionId)
    requires p < |db.pages|
  {
    var (db1, id) := UpsertRevision(db, p, None, format, content, summary, author, true);
    var slugs := if format == MARKDOWN then LinkedSlugs(content) else [];
    (db1.(links := ReplaceLinks(db1.links, db.pages[p].tenantId, p, slugs)), id)
  }

  datatype PageInput = PageInput(tenantId: string, title: string, slug: Option<string>, pageType: string,
                                 status: Option<string>, format: string, content: string,
                                 summary: Option<string>, authorType: string)

  /** `slug or title`. */
  function SlugSource(input: PageInput): string {
    if input.slug.Some? && input.slug.value != "" then input.slug.value else input.title
  }

  /** The page row that the call works on: found and updated in place, or created. */
  function PreparePage(db: Db, input: PageInput, slug: string): (r: (Db, PageId))
    ensures r.1 < |r.0.pages| && r.0.pages[r.1].tenantId == input.tenantId
  {
    match FindPage(db.pages, input.tenantId, slug)
    case None =>
      var status := if input.status.Some? && input.status.value != "" then input.status.value else "draft";
      (db.(pages := db.pages + [Page(input.tenantId, slug, input.title, input.pageType, status, None)]), |db.pages|)
    case Some(p) =>
      var page := db.pages[p].(title := input.title, pageType := input.pageType);
      var status := if input.status.Some? then input.status.value else page.status;
      (db.(pages := db.pages[p := page.(status := status)]), p)
  }

  function CreateOrUpdatePage(db: Db, input: PageInput): Result<(Db, Detail), WikiError> {
    match RequireSlug(SlugSource(input))
    case Err(e) => Err(e)
    case Ok(slug) =>
      var (db1, p) := PreparePage(db, input, slug);
      var (db2, id) := Revise(db1, p, input.format, input.content, input.summary, input.authorType);
      Ok((db2, Detail(p, id)))
  }

  function CreateRevision(db: Db, tenant: string, slug: string, format: string, content: string,
                          summary: Option<string>, author: string): Result<(Db, Detail), WikiError>
  {
    match RequireSlug(slug)
    case Err(e) => Err(e)
    case Ok(s) =>
      match RequirePage(db, tenant, s)
      case Err(e) => Err(e)
      case Ok(p) =>
        var (db1, id) := Revise(db, p, format, content, summary, author);
        Ok((db1, Detail(p, id)))
  }

  /** Publishing changes which revision is current and the status; the links stay. */
  function PublishPage(db: Db, tenant: string, slug: string, no: Option<nat>): Result<(Db, Detail), WikiError> {
    match RequireSlug(slug)
    case Err(e) => Err(e)
    case Ok(s) =>
      match RequirePage(db, tenant, s)
      case Err(e) => Err(e)
      case Ok(p) =>
        var id := if no.Some? then FindRevision(db.revisions, p, no.value) else CurrentRevision(db, p);
        if id.None? then Err(if no.Some? then NoSuchRevision(s, no.value) else NoCurrentRevision(s))
        else
          Ok((db.(pages := db.pages[p := db.pages[p].(current := id, status := "published")]), Detail(p, id.value)))
  }

  function GetPage(db: Db, tenant: string, slug: string): Result<(PageId, Option<RevisionId>), WikiError> {
    match RequireSlug(slug)
    case Err(e) => Err(e)
    case Ok(s) =>
      match RequirePage(db, tenant, s)
      case Err(e) => Err(e)
      case Ok(p) => Ok((p, CurrentRevision(db, p)))
  }

  function NewSources(claim: ClaimId, inputs: seq<ClaimSourceInput>): (r: seq<ClaimSource>)
    ensures |r| == |inputs| && forall i :: 0 <= i < |r| ==> r[i] == ClaimSource(claim, inputs[i])
  {
    seq(|inputs|, i requires 0 <= i < |inputs| => ClaimSource(claim, inputs[i]))
  }

  /** A claim on the page's current revision, with one source row for each input. */
  function AddClaim(db: Db, tenant: string, slug: string, text: string, inputs: seq<ClaimSourceInput>,
                    support: string, confidence: Option<real>): Result<(Db, ClaimId), WikiError>
  {
    match RequireSlug(slug)
    case Err(e) => Err(e)
    case Ok(s) =>
      match RequirePage(db, tenant, s)
      case Err(e) => Err(e)
      case Ok(p) =>
        match CurrentRevision(db, p)
        case None => Err(NoCurrentRevision(s))
        case Some(r) =>
          var id := |db.claims|;
          Ok((db.(claims := db.claims + [Claim(tenant, p, r, text, support, confidence)],
                  sources := db.sources + NewSources(id, inputs)), id))
  }

  datatype Op =
    | SavePage(input: PageInput)
    | SaveRevision(tenantId: string, slug: string, format: string, content: string, summary: Option<string>, authorType: string)
    | Publish(tenantId: string, slug: string, no: Option<nat>)
    | SaveClaim(tenantId: string, slug: string, text: string, inputs: seq<ClaimSourceInput>, support: string, confidence: Option<real>)

  function Perform(db: Db, op: Op): Db {
    match op
    case SavePage(input) =>
      var r := CreateOrUpdatePage(db, input);
      if r.Ok? then r.value.0 else db
    case SaveRevision(tenant, slug, format, content, summary, author) =>
      var r := CreateRevision(db, tenant, slug, format, content, summary, author);
      if r.Ok? then r.value.0 else db
    case Publish(tenant, slug, no) =>
      var r := PublishPage(db, tenant, slug, no);
      if r.Ok? then r.value.0 else db
    case SaveClaim(tenant, slug, text, inputs, support, confidence) =>
      var r := AddClaim(db, tenant, slug, text, inputs, support, confidence);
      if r.Ok? then r.value.0 else db
  }

  function PerformAll(db: Db, ops: seq<Op>): Db
    decreases |ops|
  {
    if ops == [] then db else PerformAll(Perform(db, ops[0]), ops[1..])
  }
}
