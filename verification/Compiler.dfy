/** The wiki compiler: what a compile does to the store and to its job, when it
    succeeds and wherever it fails. */
module Compiler {
  import opened Sequences
  import opened Text
  import opened Slugs
  import opened Json
  import opened WikiStore
  import opened WikiInvariants
  import opened WikiServices
  import opened Evidence
  import opened Extraction
  import opened Rendering
  import opened CompiledStore

  const CONCEPT := "concept"
  const AGENT := "agent"
  const NO_TARGET := "target_slug cannot be empty"

  /** What the RAG runtime returns for a query; its exceptions are messages. */
  datatype RagAnswer = RagAnswer(answer: string, metadata: seq<Entry>)
  type RagRuntime = string -> Result<RagAnswer, string>

  /** Python's `repr` of a string. */
  type Quoting = string -> string

  datatype CompilerEvidence = CompilerEvidence(query: string, answer: string, metadata: seq<Entry>,
                                               sourceId: Option<string>, sources: seq<ClaimSourceInput>)

  datatype CompiledPage = CompiledPage(page: PageId, slug: string, title: string, revision: RevisionId, revisionNo: nat, claimCount: nat)

  datatype CompileResult = CompileResult(job: JobId, page: CompiledPage)

  /** An exception out of the store during a compile, by the number of writes that went
      through before it: the page, then each claim, then marking the job as succeeded. */
  datatype Fault = Fault(after: nat, message: string)

  /** Where an exception stops a job before its body: its row is not created, or stays pending. */
  datatype StartFault = Creating(message: string) | Starting(message: string)

  /** All the exceptions that the store can raise in a compile; the last one when a job whose
      body has raised is to be marked as failed. */
  datatype JobFaults = JobFaults(start: Option<StartFault>, body: Option<Fault>, failing: Option<string>)

  /** The request of one compile job, after its arguments have been resolved. */
  datatype Request = Request(tenantId: string, jobSource: string, slug: string, query: string,
                             evidenceSource: Option<string>, title: string)

  function Capitalize(word: string): string {
    if word == "" then ""
    else [if 'a' <= word[0] <= 'z' then word[0] - 'a' + 'A' else word[0]] + LowerAll(word[1..])
  }

  function CapitalizeAll(words: seq<string>): seq<string> {
    seq(|words|, i requires 0 <= i < |words| => Capitalize(words[i]))
  }

  function TitleFromSlug(slug: string): string {
    var title := Join(CapitalizeAll(Words(Replace(Replace(slug, '-', ' '), '_', ' '))), " ");
    if title == "" then "Untitled" else title
  }

  /** An existing page keeps its title; a new page gets the given one. */
  function ResolvePageTitle(db: Db, tenant: string, slug: string, fallback: Option<string>): string {
    match FindPage(db.pages, tenant, slug)
    case Some(p) => db.pages[p].title
    case None => if fallback.Some? && fallback.value != "" then fallback.value else TitleFromSlug(slug)
  }

  function PlanFor(db: Db, tenant: string, slug: string, evidence: CompilerEvidence, fallback: Option<string>, str: Printer): Plan {
    var title := ResolvePageTitle(db, tenant, slug, fallback);
    var claims := ClaimTexts(evidence.metadata, evidence.answer, str);
    Plan(PageInput(tenant, title, Some(slug), CONCEPT, None, MARKDOWN,
                   RenderPage(title, slug, evidence.metadata, evidence.answer, evidence.sources, claims, str),
                   Some(SummaryFromAnswer(evidence.answer)), AGENT),
         slug, claims, evidence.sources)
  }

  function PageOf(db: Db, plan: Plan): CompiledPage {
    CompiledPage(SavedPage(db, plan), plan.target, plan.input.title, |db.revisions|, SavedRevision(db, plan).no, |plan.claims|)
  }

  function Saved(db: Db, plan: Plan, fault: Option<Fault>): (Db, Result<CompiledPage, string>) {
    if fault.Some? && fault.value.after <= |plan.claims| then (After(db, plan, fault.value.after), Err(fault.value.message))
    else (After(db, plan, |plan.claims| + 1), Ok(PageOf(db, plan)))
  }

  function ResolveTargetSlug(target: Option<string>, fallback: string): string {
    Slugify(if target.Some? && target.value != "" then target.value else fallback)
  }

  function EvidenceOf(request: Request, answer: RagAnswer, str: Printer): CompilerEvidence {
    CompilerEvidence(request.query, answer.answer, answer.metadata, request.evidenceSource,
                     Sources(answer.metadata, request.query, request.evidenceSource, str))
  }

  function RequestPlan(db: Db, request: Request, answer: RagAnswer, str: Printer): Plan {
    PlanFor(db, request.tenantId, request.slug, EvidenceOf(request, answer, str), Some(request.title), str)
  }

  function Started(db: Db, request: Request): Db {
    db.(jobs := db.jobs + [CompileJob(request.tenantId, request.jobSource, Some(request.slug), Processing, None)])
  }

  /** The job's row once it has ended. */
  function EndedJob<T>(request: Request, r: Result<T, string>): CompileJob {
    CompileJob(request.tenantId, request.jobSource, Some(request.slug),
               if r.Ok? then Succeeded else Failed, if r.Ok? then None else Some(r.error))
  }

  /** What the request asks to save: the RAG runtime's answer as a plan, or its exception. */
  function RequestedPlan(db: Db, request: Request, rag: RagRuntime, str: Printer): Result<Plan, string> {
    match rag(request.query)
    case Err(message) => Err(message)
    case Ok(answer) => Ok(RequestPlan(db, request, answer, str))
  }

  /** What the job's body leaves in the store and returns. */
  function Body(db: Db, plan: Result<Plan, string>, fault: Option<Fault>): (Db, Result<CompiledPage, string>) {
    match plan
    case Err(message) => (db, Err(message))
    case Ok(plan) =>
      var (db', r) := Saved(db, plan, fault);
      (db', if fault.Some? && fault.value.after == |plan.claims| + 1 then Err(fault.value.message) else r)
  }

  /** A compile from the started job on: the store it leaves, with the ended job, and what
      the caller gets. */
  function Processed(db: Db, request: Request, plan: Result<Plan, string>, fault: Option<Fault>): (Db, Result<CompileResult, string>) {
    var (db', r) := Body(Started(db, request), plan, fault);
    (db'.(jobs := db.jobs + [EndedJob(request, r)]),
     if r.Ok? then Ok(CompileResult(|db.jobs|, r.value)) else Err(r.error))
  }

  function JobRow(request: Request, status: JobStatus): CompileJob {
    CompileJob(request.tenantId, request.jobSource, Some(request.slug), status, None)
  }

  /** A whole compile, with whatever the store raises at any of its writes. */
  function Compiled(db: Db, request: Request, plan: Result<Plan, string>, faults: JobFaults): (Db, Result<CompileResult, string>) {
    match faults.start
    case Some(Creating(message)) => (db, Err(message))
    case Some(Starting(message)) => (db.(jobs := db.jobs + [JobRow(request, Pending)]), Err(message))
    case None =>
      var (db', r) := Processed(db, request, plan, faults.body);
      if r.Err? && faults.failing.Some? then (db'.(jobs := db.jobs + [JobRow(request, Processing)]), Err(faults.failing.value))
      else (db', r)
  }

  // ---------------------------------------------------------------- requests

  const FOCUS := "Focus on facts, key concepts, relationships, and open questions."

  function SourceEvidenceQuery(source: string, quoted: Quoting): string {
    "Return source-backed evidence from document " + quoted(source) + ". " + FOCUS
  }

  function TopicEvidenceQuery(topic: string, source: Option<string>, quoted: Quoting): string {
    "Return source-backed evidence about " + quoted(topic)
    + (if source.Some? && source.value != "" then " from document " + quoted(source.value) else "") + ". " + FOCUS
  }

  function SourceRequest(tenant: string, sourceId: string, target: Option<string>, quoted: Quoting): Result<Request, string> {
    var source := Strip(sourceId);
    var slug := ResolveTargetSlug(target, SourcePageTitle(source));
    if source == "" then Err("source_id cannot be empty")
    else if slug == "" then Err(NO_TARGET)
    else Ok(Request(tenant, source, slug, SourceEvidenceQuery(source, quoted), Some(source), SourcePageTitle(source)))
  }

  function TopicRequest(tenant: string, topic: string, query: string, sourceId: Option<string>, target: Option<string>,
                        quoted: Quoting): Result<Request, string>
  {
    var title := Strip(topic);
    var slug := ResolveTargetSlug(target, title);
    if title == "" then Err("topic cannot be empty")
    else if slug == "" then Err(NO_TARGET)
    else
      var jobSource := if sourceId.Some? && Strip(sourceId.value) != "" then Strip(sourceId.value) else "topic:" + slug;
      Ok(Request(tenant, jobSource, slug,
                 if Strip(query) != "" then Strip(query) else TopicEvidenceQuery(title, sourceId, quoted),
                 sourceId, title))
  }

  ghost predicate IsRequest(request: Request) { request.slug != "" && IsSlug(request.slug) }

  lemma PlanIsPlan(db: Db, tenant: string, slug: string, evidence: CompilerEvidence, fallback: Option<string>, str: Printer)
    requires slug != "" && IsSlug(slug)
    ensures IsPlan(PlanFor(db, tenant, slug, evidence, fallback, str))
  {
    SlugifyNormalForm(slug);
  }

  lemma TargetIsPlan(db: Db, tenant: string, spelling: string, evidence: CompilerEvidence, fallback: Option<string>, str: Printer)
    requires Slugify(spelling) != ""
    ensures IsPlan(PlanFor(db, tenant, Slugify(spelling), evidence, fallback, str))
  {
    SlugifyNormalForm(spelling);
    PlanIsPlan(db, tenant, Slugify(spelling), evidence, fallback, str);
  }

  /** How many of the plan's writes go through before the exception. */
  function WritesDone(plan: Plan, fault: Option<Fault>): (n: nat)
    ensures n <= |plan.claims| + 1
  {
    if fault.Some? && fault.value.after <= |plan.claims| then fault.value.after else |plan.claims| + 1
  }

  lemma StartedKeeps(db: Db, request: Request)
    requires StoreInv(db)
    ensures StoreInv(Started(db, request))
  {
    JobsAreApart(db, Started(db, request).jobs);
  }

  lemma SavedKeeps(db: Db, plan: Plan, fault: Option<Fault>)
    requires StoreInv(db) && IsPlan(plan)
    ensures StoreInv(Saved(db, plan, fault).0) && Saved(db, plan, fault).0.jobs == db.jobs
  {
    WritesKeep(db, plan, WritesDone(plan, fault));
    JobsStay(db, plan, WritesDone(plan, fault));
  }

  lemma BodyKeeps(db: Db, plan: Result<Plan, string>, fault: Option<Fault>)
    requires StoreInv(db) && (plan.Ok? ==> IsPlan(plan.value))
    ensures StoreInv(Body(db, plan, fault).0) && Body(db, plan, fault).0.jobs == db.jobs
  {
    if plan.Ok? {
      SavedKeeps(db, plan.value, fault);
    }
  }

  /** A source request: the page is the target's if a target is given, and else that of the title
      "Source ..."; the evidence is asked for, and attributed to, the stripped source id. It is
      rejected exactly when the stripped id is empty, or a given target has no slug. */
  lemma SourceRequestIsRequest(tenant: string, sourceId: string, target: Option<string>, quoted: Quoting)
    ensures var r, source := SourceRequest(tenant, sourceId, target, quoted), Strip(sourceId);
            var slug := PageSlug(target, "Source " + source);
            && (r == if source == "" then Err("source_id cannot be empty")
                     else if slug == "" then Err("target_slug cannot be empty")
                     else Ok(Request(tenant, source, slug, "Return source-backed evidence from document " + quoted(source) + ". " + FOCUS,
                                     Some(source), "Source " + source)))
            && (r.Ok? ==> IsRequest(r.value) && r.value.jobSource != "")
            && (slug == "" ==> target.Some? && target.value != "" && Slugify(target.value) == "")
  {
    TargetSlugIsSlug(target, SourcePageTitle(Strip(sourceId)));
    SourceTitleHasSlug(Strip(sourceId));
  }

  /** A topic request: the page is the target's, or the topic's if no target is given. The query is
      the given one unless that is blank; the evidence is attributed to the given source id as it is,
      and the job to the stripped one, or to the page if that is blank. It is rejected exactly when
      the topic is blank, or what names the page has no slug. */
  lemma TopicRequestIsRequest(tenant: string, topic: string, query: string, sourceId: Option<string>, target: Option<string>,
                              quoted: Quoting)
    ensures var r, title := TopicRequest(tenant, topic, query, sourceId, target, quoted), Strip(topic);
            var slug := PageSlug(target, title);
            && (r.Err? <==> title == "" || slug == "")
            && (title == "" ==> r == Err("topic cannot be empty"))
            && (title != "" && slug == "" ==> r == Err("target_slug cannot be empty"))
            && (r.Ok? ==>
                  var request := r.value;
                  && IsRequest(request) && request.jobSource != ""
                  && request.tenantId == tenant && request.slug == slug && request.title == title && request.evidenceSource == sourceId
                  && (if Strip(query) != "" then request.query == Strip(query)
                      else AsksAbout(request.query, title, sourceId, quoted))
                  && request.jobSource == (if sourceId.None? || Strip(sourceId.value) == "" then "topic:" + slug
                                           else Strip(sourceId.value)))
  {
    TargetSlugIsSlug(target, Strip(topic));
    if sourceId.Some? {
      StripShape(sourceId.value);
    }
  }

  /** The query asks for evidence about the topic, and only of the given document if one is given. */
  predicate AsksAbout(query: string, topic: string, source: Option<string>, quoted: Quoting) {
    var about := "Return source-backed evidence about " + quoted(topic);
    match source
    case Some(id) =>
      if id == "" then query == about + "" + ". " + FOCUS
      else query == about + (" from document " + quoted(id)) + ". " + FOCUS
    case None => query == about + "" + ". " + FOCUS
  }

  /** The slug of the page that a request is about: the target's if a target is given. */
  function PageSlug(target: Option<string>, title: string): string {
    match target
    case None => Slugify(title)
    case Some(spelling) => if spelling == "" then Slugify(title) else Slugify(spelling)
  }

  lemma SourceTitleHasSlug(source: string)
    ensures Slugify("Source " + source) != ""
  {
    var title := "Source " + source;
    SlugifyIsScan(title);
    assert title[0] == 'S';
  }

  lemma TargetSlugIsSlug(target: Option<string>, fallback: string)
    ensures var slug := ResolveTargetSlug(target, fallback); slug == "" || IsSlug(slug)
  {
    SlugifyNormalForm(if target.Some? && target.value != "" then target.value else fallback);
  }

  // ----------------------------------------------------------- whole compiles

  lemma ProcessedIs(db: Db, request: Request, plan: Result<Plan, string>, fault: Option<Fault>,
                   db': Db, r: Result<CompiledPage, string>)
    requires StoreInv(db) && (plan.Ok? ==> IsPlan(plan.value)) && (db', r) == Body(Started(db, request), plan, fault)
    ensures Processed(db, request, plan, fault) ==
            (db'.(jobs := db.jobs + [EndedJob(request, r)]), if r.Ok? then Ok(CompileResult(|db.jobs|, r.value)) else Err(r.error))
    ensures db'.jobs == Started(db, request).jobs && StoreInv(db'.(jobs := db.jobs + [EndedJob(request, r)]))
  {
    StartedKeeps(db, request);
    BodyKeeps(Started(db, request), plan, fault);
    JobsAreApart(db', db.jobs + [EndedJob(request, r)]);
  }

  /** How saving a plan ends, in the store and for the caller. If nothing raises, the page and
      all its claims have been saved, exactly once. If something raises, the caller gets the
      exception, and what was saved before it stays. */
  ghost predicate EndsAs(db: Db, db': Db, plan: Plan, fault: Option<Fault>, r: Result<CompiledPage, string>) {
    if fault.Some? && fault.value.after <= |plan.claims| + 1 then
      && r == Err(fault.value.message)
      && (if fault.value.after == 0 then db' == db.(jobs := db'.jobs) else Conserved(db, db', plan, fault.value.after - 1))
    else
      r == Ok(PageOf(db, plan)) && Conserved(db, db', plan, |plan.claims|)
  }

  lemma EndsApartFromJobs(db: Db, db': Db, plan: Plan, fault: Option<Fault>, r: Result<CompiledPage, string>,
                          before: seq<CompileJob>, after: seq<CompileJob>)
    requires EndsAs(db, db', plan, fault, r)
    ensures EndsAs(db.(jobs := before), db'.(jobs := after), plan, fault, r)
  {
  }

  lemma SavedConserves(db: Db, plan: Plan, fault: Option<Fault>)
    requires StoreInv(db) && IsPlan(plan)
    ensures var (db', r) := Saved(db, plan, fault);
            EndsAs(db, db', plan, fault, if fault.Some? && fault.value.after == |plan.claims| + 1 then Err(fault.value.message) else r)
  {
    if fault.None? || fault.value.after > |plan.claims| {
      CompileConserves(db, plan, |plan.claims|);
    } else if fault.value.after > 0 {
      CompileConserves(db, plan, fault.value.after - 1);
    }
  }

  lemma RequestedPlanIsPlan(db: Db, request: Request, rag: RagRuntime, str: Printer)
    requires IsRequest(request)
    ensures var plan := RequestedPlan(db, request, rag, str); plan.Ok? ==> IsPlan(plan.value)
  {
    var answer := rag(request.query);
    if answer.Ok? {
      PlanIsPlan(db, request.tenantId, request.slug, EvidenceOf(request, answer.value, str), Some(request.title), str);
    }
  }

  lemma PlanApartFromJobs(db: Db, request: Request, rag: RagRuntime, str: Printer)
    ensures RequestedPlan(Started(db, request), request, rag, str) == RequestedPlan(db, request, rag, str)
  {
  }

  /** Every compile, from any store, for any plan and any exception: the body ends as `EndsAs`
      says, and an exception of the RAG runtime changes nothing. */
  lemma ProcessedOutcome(db: Db, request: Request, plan: Result<Plan, string>, fault: Option<Fault>)
    requires StoreInv(db) && (plan.Ok? ==> IsPlan(plan.value))
    ensures var (db', r) := Processed(db, request, plan, fault);
            var page := if r.Ok? then Ok(r.value.page) else Err(r.error);
            match plan
            case Err(message) => page == Err(message) && db' == db.(jobs := db'.jobs)
            case Ok(plan) => EndsAs(db, db', plan, fault, page)
  {
    if plan.Ok? {
      var start := Started(db, request);
      StartedKeeps(db, request);
      SavedConserves(start, plan.value, fault);
      var body := Body(start, plan, fault);
      EndsApartFromJobs(start, body.0, plan.value, fault, body.1, db.jobs, db.jobs + [EndedJob(request, body.1)]);
      assert start.(jobs := db.jobs) == db;
    }
  }

  /** Every compile keeps the store's invariant and ends with exactly one more job: succeeded
      without an error if the caller gets a page, and otherwise failed with the message of the
      exception that the caller gets. */
  lemma ProcessedEndsItsJob(db: Db, request: Request, plan: Result<Plan, string>, fault: Option<Fault>)
    requires StoreInv(db) && (plan.Ok? ==> IsPlan(plan.value))
    ensures var (db', r) := Processed(db, request, plan, fault);
            && StoreInv(db') && db'.jobs == db.jobs + [EndedJob(request, r)]
            && (r.Ok? ==> r.value.job == |db.jobs|)
  {
    var body := Body(Started(db, request), plan, fault);
    ProcessedIs(db, request, plan, fault, body.0, body.1);
  }

  /** What the body of a job comes to. */
  function BodyResult(db: Db, plan: Result<Plan, string>, fault: Option<Fault>): Result<CompiledPage, string> {
    match plan
    case Err(message) => Err(message)
    case Ok(plan) =>
      if fault.Some? && fault.value.after <= |plan.claims| + 1 then Err(fault.value.message) else Ok(PageOf(db, plan))
  }

  /** How the writes to a job end: the job after a compile, if there is one. */
  function JobAfter(db: Db, request: Request, plan: Result<Plan, string>, faults: JobFaults): seq<CompileJob> {
    var body := BodyResult(db, plan, faults.body);
    match faults.start
    case Some(Creating(_)) => []
    case Some(Starting(_)) => [JobRow(request, Pending)]
    case None => [if body.Err? && faults.failing.Some? then JobRow(request, Processing) else EndedJob(request, body)]
  }

  lemma ProcessedResult(db: Db, request: Request, plan: Result<Plan, string>, fault: Option<Fault>)
    requires StoreInv(db) && (plan.Ok? ==> IsPlan(plan.value))
    ensures var (db', r) := Processed(db, request, plan, fault);
            r == (match BodyResult(db, plan, fault)
                  case Ok(page) => Ok(CompileResult(|db.jobs|, page))
                  case Err(message) => Err(message))
            && db'.jobs == db.jobs + [EndedJob(request, BodyResult(db, plan, fault))]
  {
    ProcessedOutcome(db, request, plan, fault);
    ProcessedEndsItsJob(db, request, plan, fault);
  }

  /** Every compile, from any store, for any plan and any exceptions: an exception before the
      body changes no page; otherwise the body ends as `EndsAs` says, and the caller gets the
      page, or the last exception raised. */
  lemma CompileOutcome(db: Db, request: Request, plan: Result<Plan, string>, faults: JobFaults)
    requires StoreInv(db) && (plan.Ok? ==> IsPlan(plan.value))
    ensures var (db', r) := Compiled(db, request, plan, faults);
            var body := BodyResult(db, plan, faults.body);
            if faults.start.Some? then r == Err(faults.start.value.message) && db' == db.(jobs := db'.jobs)
            else
              && (plan.Ok? ==> EndsAs(db, db', plan.value, faults.body, body))
              && (plan.Err? ==> db' == db.(jobs := db'.jobs) && body == Err(plan.error))
              && r == (if body.Ok? then Ok(CompileResult(|db.jobs|, body.value))
                       else Err(if faults.failing.Some? then faults.failing.value else body.error))
  {
    if faults.start.None? {
      ProcessedOutcome(db, request, plan, faults.body);
      ProcessedResult(db, request, plan, faults.body);
      if plan.Ok? {
        EndsApartFromJobs(db, Processed(db, request, plan, faults.body).0, plan.value, faults.body, BodyResult(db, plan, faults.body),
                          db.jobs, Compiled(db, request, plan, faults).0.jobs);
      }
    }
  }

  /** Every compile keeps the store's invariant and writes to one new job at most. The job ends,
      succeeded if the caller gets a page and else failed with the caller's exception, if and only
      if nothing raises when it is created, marked as processing or marked as failed; otherwise
      there is no job, or it stays pending or processing. */
  lemma CompileEndsItsJob(db: Db, request: Request, plan: Result<Plan, string>, faults: JobFaults)
    requires StoreInv(db) && (plan.Ok? ==> IsPlan(plan.value))
    ensures var (db', r) := Compiled(db, request, plan, faults);
            var job := JobAfter(db, request, plan, faults);
            && StoreInv(db') && db'.jobs == db.jobs + job
            && (job == [EndedJob(request, r)] <==>
                faults.start.None? && (BodyResult(db, plan, faults.body).Ok? || faults.failing.None?))
            && (r.Ok? ==> r.value.job == |db.jobs| && job == [EndedJob(request, r)])
    ensures var (db', r) := Compiled(db, request, plan, faults);
            var row := CompileJob(request.tenantId, request.jobSource, Some(request.slug), Pending, None);
            db'.jobs == match faults.start
                        case Some(Creating(_)) => db.jobs
                        case Some(Starting(_)) => db.jobs + [row]
                        case None =>
                          if r.Ok? then db.jobs + [row.(status := Succeeded)]
                          else if faults.failing.None? then db.jobs + [row.(status := Failed, error := Some(r.error))]
                          else db.jobs + [row.(status := Processing)]
  {
    if faults.start.None? {
      ProcessedResult(db, request, plan, faults.body);
      ProcessedEndsItsJob(db, request, plan, faults.body);
      JobsAreApart(Processed(db, request, plan, faults.body).0, Compiled(db, request, plan, faults).0.jobs);
    } else {
      JobsAreApart(db, Compiled(db, request, plan, faults).0.jobs);
    }
  }

  lemma SuccessIsProcessed(db: Db, request: Request, plan: Result<Plan, string>, faults: JobFaults)
    requires Compiled(db, request, plan, faults).1.Ok?
    ensures Compiled(db, request, plan, faults) == Processed(db, request, plan, faults.body)
  {
  }

  /** What a compile of a page under a slug comes to, whatever it raises: on success the page found
      under the slug, which is the one that was there or a new one, has one more revision, and that
      one is current; the claims are as many as reported. Pages under other slugs, or of other
      tenants, are as they were. */
  ghost predicate CompiledUnder(db: Db, db': Db, tenant: string, slug: string, title: string, r: Result<CompileResult, string>) {
    && db.revisions <= db'.revisions
    && (forall q :: 0 <= q < |db.pages| && (db.pages[q].tenantId != tenant || db.pages[q].slug != slug) ==> Untouched(db, db', q))
    && (r.Ok? ==>
          var page, found := r.value.page, FindPage(db.pages, tenant, slug);
          && page.slug == slug && FindPage(db'.pages, tenant, slug) == Some(page.page)
          && page.page == (if found.Some? then found.value else |db.pages|)
          && page.title == db'.pages[page.page].title == (if found.Some? then db.pages[found.value].title else title)
          && db'.pages[page.page].pageType == "concept" && db'.pages[page.page].current == Some(page.revision)
          && db'.pages[page.page].status == (if found.Some? then db.pages[found.value].status else "draft")
          && page.revision == |db.revisions| && |db'.revisions| == |db.revisions| + 1
          && db'.revisions[page.revision].pageId == page.page && db'.revisions[page.revision].no == page.revisionNo
          && db'.revisions[page.revision].format == "markdown" && db'.revisions[page.revision].authorType == "agent"
          && |db'.claims| == |db.claims| + page.claimCount)
  }

  predicate Untouched(db: Db, db': Db, q: PageId)
    requires q < |db.pages|
  {
    && q < |db'.pages| && db'.pages[q] == db.pages[q]
    && History(db'.revisions, q) == History(db.revisions, q) && LinksFrom(db'.links, q) == LinksFrom(db.links, q)
  }

  /** The plan is for the request's page. */
  predicate PlansFor(db: Db, plan: Plan, request: Request) {
    && IsPlan(plan) && plan.input.tenantId == request.tenantId && plan.target == request.slug
    && plan.input.title == ResolvePageTitle(db, request.tenantId, request.slug, Some(request.title))
    && plan.input.pageType == CONCEPT && plan.input.authorType == AGENT && plan.input.status == None
  }

  lemma RequestedPlanIsFor(db: Db, request: Request, rag: RagRuntime, str: Printer)
    requires IsRequest(request)
    ensures var plan := RequestedPlan(db, request, rag, str); plan.Ok? ==> PlansFor(db, plan.value, request)
  {
    RequestedPlanIsPlan(db, request, rag, str);
  }

  lemma SavedTouchesOnePage(db: Db, plan: Plan, fault: Option<Fault>, q: PageId)
    requires StoreInv(db) && IsPlan(plan) && q < |db.pages|
    requires db.pages[q].tenantId != plan.input.tenantId || db.pages[q].slug != plan.target
    ensures Untouched(db, Saved(db, plan, fault).0, q)
  {
    WritesTouchOnePage(db, plan, WritesDone(plan, fault), q);
  }

  lemma WritesTouchOnePage(db: Db, plan: Plan, done: nat, q: PageId)
    requires StoreInv(db) && IsPlan(plan) && q < |db.pages| && done <= |plan.claims| + 1
    requires db.pages[q].tenantId != plan.input.tenantId || db.pages[q].slug != plan.target
    ensures Untouched(db, After(db, plan, done), q)
  {
    if done > 0 {
      CompileTouchesOnePage(db, plan, done - 1, q);
    } else {
      assert After(db, plan, 0) == db;
    }
  }

  lemma CompiledTouchesOnePage(db: Db, request: Request, plan: Result<Plan, string>, faults: JobFaults, q: PageId)
    requires StoreInv(db) && (plan.Ok? ==> PlansFor(db, plan.value, request)) && q < |db.pages|
    requires db.pages[q].tenantId != request.tenantId || db.pages[q].slug != request.slug
    ensures Untouched(db, Compiled(db, request, plan, faults).0, q)
  {
    if faults.start.None? && plan.Ok? {
      StartedKeeps(db, request);
      SavedTouchesOnePage(Started(db, request), plan.value, faults.body, q);
    }
  }

  lemma CompiledKeepsHistory(db: Db, request: Request, plan: Result<Plan, string>, faults: JobFaults)
    requires StoreInv(db) && (plan.Ok? ==> IsPlan(plan.value))
    ensures db.revisions <= Compiled(db, request, plan, faults).0.revisions
  {
    if faults.start.None? && plan.Ok? {
      var start, fault := Started(db, request), faults.body;
      StartedKeeps(db, request);
      WritesKeep(start, plan.value, WritesDone(plan.value, fault));
    }
  }

  /** Every compile ends as `CompiledUnder` says, for any plan for its request and any exceptions. */
  lemma CompileWritesOnePage(db: Db, request: Request, plan: Result<Plan, string>, faults: JobFaults)
    requires StoreInv(db) && request.title != "" && (plan.Ok? ==> PlansFor(db, plan.value, request))
    ensures var (db', r) := Compiled(db, request, plan, faults);
            CompiledUnder(db, db', request.tenantId, request.slug, request.title, r)
  {
    var db' := Compiled(db, request, plan, faults).0;
    CompiledKeepsHistory(db, request, plan, faults);
    forall q | 0 <= q < |db.pages| && (db.pages[q].tenantId != request.tenantId || db.pages[q].slug != request.slug)
      ensures Untouched(db, db', q)
    {
      CompiledTouchesOnePage(db, request, plan, faults, q);
    }
    var r := Compiled(db, request, plan, faults).1;
    if r.Ok? {
      SuccessIsProcessed(db, request, plan, faults);
      ProcessedOutcome(db, request, plan, faults.body);
      SuccessConserves(db, request, plan.value, faults);
      NewClaimsCounted(db, db', plan.value);
    }
  }

  lemma RequestWritesOnePage(db: Db, request: Request, rag: RagRuntime, faults: JobFaults, str: Printer)
    requires StoreInv(db) && IsRequest(request)
    ensures var (db', r) := Compiled(db, request, RequestedPlan(db, request, rag, str), faults);
            request.title != "" ==> CompiledUnder(db, db', request.tenantId, request.slug, request.title, r)
  {
    if request.title != "" {
      RequestedPlanIsFor(db, request, rag, str);
      CompileWritesOnePage(db, request, RequestedPlan(db, request, rag, str), faults);
    }
  }

  /** What a successful compile has stored of the RAG runtime's answer: the new revision is the page
      rendered from it, with its summary; the new claims are its claims, in order, supported, and each
      with exactly the sources that the metadata yields. */
  ghost predicate StoresAnswer(db: Db, db': Db, request: Request, answer: RagAnswer, page: CompiledPage, str: Printer) {
    var sources := Sources(answer.metadata, request.query, request.evidenceSource, str);
    var claims := ClaimTexts(answer.metadata, answer.answer, str);
    && page.revision < |db'.revisions| && page.claimCount == |claims| && |db'.claims| == |db.claims| + |claims|
    && db'.revisions[page.revision].summary == Some(SummaryFromAnswer(answer.answer))
    && db'.revisions[page.revision].content == RenderPage(page.title, request.slug, answer.metadata, answer.answer, sources, claims, str)
    && forall i :: 0 <= i < |claims| ==>
         && db'.claims[|db.claims| + i] == Claim(request.tenantId, page.page, page.revision, claims[i], "supported", Some(0.5))
         && SourcesOf(db'.sources, |db.claims| + i) == NewSources(|db.claims| + i, sources)
  }

  ghost predicate StoresAnswerTo(db: Db, db': Db, request: Request, rag: RagRuntime, page: CompiledPage, str: Printer) {
    rag(request.query).Ok? && StoresAnswer(db, db', request, rag(request.query).value, page, str)
  }

  /** A compile succeeds only with an answer to the request's query, and then it stores that answer. */
  lemma CompileStoresAnswer(db: Db, request: Request, rag: RagRuntime, faults: JobFaults, str: Printer)
    requires StoreInv(db) && IsRequest(request)
    requires Compiled(db, request, RequestedPlan(db, request, rag, str), faults).1.Ok?
    ensures var (db', r) := Compiled(db, request, RequestedPlan(db, request, rag, str), faults);
            StoresAnswerTo(db, db', request, rag, r.value.page, str)
  {
    var plan := RequestedPlan(db, request, rag, str);
    RequestedPlanIsPlan(db, request, rag, str);
    SuccessIsProcessed(db, request, plan, faults);
    ProcessedOutcome(db, request, plan, faults.body);
    SuccessConserves(db, request, plan.value, faults);
    var (db', r) := Compiled(db, request, plan, faults);
    PlanHoldsAnswer(db, request, rag(request.query).value, str);
    ConservedStores(db, db', request, rag(request.query).value, plan.value, str);
  }

  lemma PlanHoldsAnswer(db: Db, request: Request, answer: RagAnswer, str: Printer)
    ensures HoldsAnswer(RequestPlan(db, request, answer, str), request, answer, str)
  {
  }

  predicate HoldsAnswer(plan: Plan, request: Request, answer: RagAnswer, str: Printer) {
    && plan.input.tenantId == request.tenantId && plan.target == request.slug
    && plan.sources == Sources(answer.metadata, request.query, request.evidenceSource, str)
    && plan.claims == ClaimTexts(answer.metadata, answer.answer, str)
    && plan.input.summary == Some(SummaryFromAnswer(answer.answer))
    && plan.input.content == RenderPage(plan.input.title, plan.target, answer.metadata, answer.answer, plan.sources, plan.claims, str)
  }

  lemma ConservedStores(db: Db, db': Db, request: Request, answer: RagAnswer, plan: Plan, str: Printer)
    requires HoldsAnswer(plan, request, answer, str) && Conserved(db, db', plan, |plan.claims|)
    ensures StoresAnswer(db, db', request, answer, PageOf(db, plan), str)
  {
    assert plan.claims[..|plan.claims|] == plan.claims;
    forall i | 0 <= i < |plan.claims|
      ensures db'.claims[|db.claims| + i] ==
              Claim(plan.input.tenantId, SavedPage(db, plan), |db.revisions|, plan.claims[i], "supported", Some(0.5))
      ensures SourcesOf(db'.sources, |db.claims| + i) == NewSources(|db.claims| + i, plan.sources)
    {
      ClaimStored(db, db', plan, i);
    }
  }

  lemma ClaimStored(db: Db, db': Db, plan: Plan, i: nat)
    requires Conserved(db, db', plan, |plan.claims|) && i < |plan.claims|
    ensures |db'.claims| == |db.claims| + |plan.claims|
    ensures db'.claims[|db.claims| + i] ==
            Claim(plan.input.tenantId, SavedPage(db, plan), |db.revisions|, plan.claims[i], "supported", Some(0.5))
    ensures SourcesOf(db'.sources, |db.claims| + i) == NewSources(|db.claims| + i, plan.sources)
  {
    assert plan.claims[..|plan.claims|] == plan.claims;
    var added := NewClaims(plan.input.tenantId, SavedPage(db, plan), |db.revisions|, plan.claims[..|plan.claims|]);
    assert db'.claims[|db.claims| + i] == added[i];
  }

  lemma NewClaimsCounted(db: Db, db': Db, plan: Plan)
    requires Conserved(db, db', plan, |plan.claims|)
    ensures |db'.claims| == |db.claims| + |plan.claims|
  {
  }

  /** From evidence to backlinks: after a successful compile, the compiled page is among the
      backlinks of every related page that was chosen from the evidence. */
  lemma RelatedPagesLinkBack(db: Db, request: Request, rag: RagRuntime, faults: JobFaults, str: Printer, related: string)
    requires StoreInv(db) && IsRequest(request) && rag(request.query).Ok?
    requires Compiled(db, request, RequestedPlan(db, request, rag, str), faults).1.Ok?
    requires var answer := rag(request.query).value;
             related in RelatedPages(answer.metadata, EvidenceOf(request, answer, str).sources, request.slug, str)
    ensures var (db', r) := Compiled(db, request, RequestedPlan(db, request, rag, str), faults);
            r.value.page.page in Backlinks(db', request.tenantId, Slugify(related))
  {
    var plan := RequestedPlan(db, request, rag, str);
    RequestedPlanIsPlan(db, request, rag, str);
    SuccessConserves(db, request, plan.value, faults);
    RequestLinksBack(db, request, rag(request.query).value, str, related, Compiled(db, request, plan, faults).0);
  }

  lemma SuccessConserves(db: Db, request: Request, plan: Plan, faults: JobFaults)
    requires StoreInv(db) && IsPlan(plan) && Compiled(db, request, Ok(plan), faults).1.Ok?
    ensures var (db', r) := Compiled(db, request, Ok(plan), faults);
            StoreInv(db') && Conserved(db, db', plan, |plan.claims|) && r.value.page == PageOf(db, plan)
  {
    SuccessIsProcessed(db, request, Ok(plan), faults);
    ProcessedOutcome(db, request, Ok(plan), faults.body);
    ProcessedEndsItsJob(db, request, Ok(plan), faults.body);
  }

  lemma RequestLinksBack(db: Db, request: Request, answer: RagAnswer, str: Printer, related: string, db': Db)
    requires StoreInv(db') && Conserved(db, db', RequestPlan(db, request, answer, str), |RequestPlan(db, request, answer, str).claims|)
    requires related in RelatedPages(answer.metadata, EvidenceOf(request, answer, str).sources, request.slug, str)
    ensures SavedPage(db, RequestPlan(db, request, answer, str)) in Backlinks(db', request.tenantId, Slugify(related))
  {
    var plan, evidence := RequestPlan(db, request, answer, str), EvidenceOf(request, answer, str);
    ConservedLinks(db, db', plan, |plan.claims|, Slugify(related));
    EveryRelatedPageIsExtracted(plan.input.title, request.slug, answer.metadata, answer.answer, evidence.sources, plan.claims, str);
  }

  /** Compiling a slug again continues its page: the same page and title, whatever the new
      request's own title is, and the next revision number. */
  lemma RecompileContinuesPage(db: Db, first: Request, plan: Plan, faults: JobFaults, again: Request, answer: RagAnswer, str: Printer)
    requires StoreInv(db) && IsPlan(plan) && Compiled(db, first, Ok(plan), faults).1.Ok?
    requires again.tenantId == plan.input.tenantId && again.slug == plan.target
    ensures var (db', r) := Compiled(db, first, Ok(plan), faults);
            var next := PageOf(db', RequestPlan(db', again, answer, str));
            next.page == r.value.page.page && next.title == r.value.page.title && next.revisionNo == r.value.page.revisionNo + 1
  {
    SuccessConserves(db, first, plan, faults);
    var db' := Compiled(db, first, Ok(plan), faults).0;
    HistorySnoc(db.revisions, SavedRevision(db, plan), SavedPage(db, plan));
    NextPageIs(db', again, answer, str, SavedPage(db, plan));
  }

  lemma NextPageIs(db: Db, request: Request, answer: RagAnswer, str: Printer, p: PageId)
    requires FindPage(db.pages, request.tenantId, request.slug) == Some(p)
    ensures var next := PageOf(db, RequestPlan(db, request, answer, str));
            next.page == p && next.title == db.pages[p].title && next.revisionNo == |History(db.revisions, p)| + 1
  {
  }

  /** The statuses committed to a compile's job, in order. */
  function Trail(id: JobId, faults: JobFaults, body: bool): seq<(JobId, JobStatus)> {
    match faults.start
    case Some(Creating(_)) => []
    case Some(Starting(_)) => [(id, Pending)]
    case None =>
      [(id, Pending), (id, Processing)] + (if body then [(id, Succeeded)] else if faults.failing.None? then [(id, Failed)] else [])
  }

  /** A whole job: pending, processing, then succeeded or failed, unless the store raises. */
  ghost predicate JobRan(before: Db, after: Db, request: Request, plan: Result<Plan, string>, faults: JobFaults,
                         r: Result<CompileResult, string>, trail: seq<(JobId, JobStatus)>, trail': seq<(JobId, JobStatus)>)
  {
    && (after, r) == Compiled(before, request, plan, faults) && StoreInv(after)
    && trail' == trail + Trail(|before.jobs|, faults, r.Ok?)
  }

  class WikiCompiler {
    const service: WikiService
    const rag: RagRuntime

    constructor (service: WikiService, rag: RagRuntime)
      ensures this.service == service && this.rag == rag
    {
      this.service, this.rag := service, rag;
    }

    /** Saves the page and then its claims, unless the store raises. */
    method UpdateExistingPageWithEvidence(tenant: string, slug: string, evidence: CompilerEvidence, fallback: Option<string>,
                                          fault: Option<Fault>, str: Printer) returns (r: Result<CompiledPage, string>)
      requires StoreInv(service.repository.View())
      modifies service.repository`pages, service.repository`revisions, service.repository`links,
               service.repository`claims, service.repository`sources
      ensures var before := old(service.repository.View());
              if Slugify(slug) == "" then service.repository.View() == before && r == Err(NO_TARGET)
              else (service.repository.View(), r) == Saved(before, PlanFor(before, tenant, Slugify(slug), evidence, fallback, str), fault)
    {
      var target := ResolveTargetSlug(Some(slug), slug);
      if target == "" {
        return Err(NO_TARGET);
      }
      var plan := RenderPlan(tenant, target, evidence, fallback, str);
      TargetIsPlan(service.repository.View(), tenant, slug, evidence, fallback, str);
      r := SavePlan(plan, fault);
    }

    method RenderPlan(tenant: string, target: string, evidence: CompilerEvidence, fallback: Option<string>, str: Printer)
      returns (plan: Plan)
      ensures plan == PlanFor(service.repository.View(), tenant, target, evidence, fallback, str)
    {
      var title := ResolvePageTitle(service.repository.View(), tenant, target, fallback);
      var claims := DedupeNonEmptyLoop(ClaimCandidates(evidence.metadata, evidence.answer, str), Some(MAX_CLAIMS_PER_PAGE));
      var markdown := RenderPage(title, target, evidence.metadata, evidence.answer, evidence.sources, claims, str);
      plan := Plan(PageInput(tenant, title, Some(target), CONCEPT, None, MARKDOWN, markdown,
                             Some(SummaryFromAnswer(evidence.answer)), AGENT),
                   target, claims, evidence.sources);
    }

    method SavePlan(plan: Plan, fault: Option<Fault>) returns (r: Result<CompiledPage, string>)
      requires IsPlan(plan) && StoreInv(service.repository.View())
      modifies service.repository`pages, service.repository`revisions, service.repository`links,
               service.repository`claims, service.repository`sources
      ensures (service.repository.View(), r) == Saved(old(service.repository.View()), plan, fault)
    {
      ghost var db := service.repository.View();
      if fault.Some? && fault.value.after == 0 {
        return Err(fault.value.message);
      }
      var saved := SavePageOf(plan);
      var revision := service.repository.revisions[saved.revision];
      var failed := AttachClaims(plan, fault, db);
      if failed {
        return Err(fault.value.message);
      }
      return Ok(CompiledPage(saved.page, plan.target, plan.input.title, saved.revision, revision.no, |plan.claims|));
    }

    method SavePageOf(plan: Plan) returns (saved: Detail)
      requires IsPlan(plan) && StoreInv(service.repository.View())
      modifies service.repository`pages, service.repository`revisions, service.repository`links
      ensures var db := old(service.repository.View());
              && service.repository.View() == After(db, plan, 1)
              && saved == Detail(SavedPage(db, plan), |db.revisions|)
              && service.repository.revisions == db.revisions + [SavedRevision(db, plan)]
    {
      ghost var db := service.repository.View();
      PageWritten(db, plan);
      var r := service.CreateOrUpdatePage(plan.input);
      assert After(db, plan, 0) == db;
      return r.value;
    }

    /** Attaches the claims one by one; an exception leaves those before it. */
    method AttachClaims(plan: Plan, fault: Option<Fault>, ghost db: Db) returns (failed: bool)
      requires fault.Some? ==> fault.value.after > 0
      requires service.repository.View() == After(db, plan, 1)
      modifies service.repository`claims, service.repository`sources
      ensures failed <==> fault.Some? && fault.value.after <= |plan.claims|
      ensures service.repository.View() == After(db, plan, if failed then fault.value.after else |plan.claims| + 1)
    {
      for i := 0 to |plan.claims|
        invariant service.repository.View() == After(db, plan, i + 1)
        invariant fault.Some? ==> fault.value.after > i
      {
        if fault.Some? && fault.value.after == i + 1 {
          return true;
        }
        AttachClaim(plan, i, db);
      }
      return false;
    }

    method AttachClaim(plan: Plan, i: nat, ghost db: Db)
      requires i < |plan.claims| && service.repository.View() == After(db, plan, i + 1)
      modifies service.repository`claims, service.repository`sources
      ensures service.repository.View() == After(db, plan, i + 2)
    {
      var _ := service.AddClaimWithSources(plan.input.tenantId, plan.target, plan.claims[i], plan.sources,
                                           SUPPORTED, Some(DEFAULT_CONFIDENCE));
    }

    /** The life of one compile job. */
    method RunJob(request: Request, faults: JobFaults, str: Printer) returns (r: Result<CompileResult, string>)
      requires IsRequest(request) && StoreInv(service.repository.View())
      modifies service.repository
      ensures var before := old(service.repository.View());
              JobRan(before, service.repository.View(), request, RequestedPlan(before, request, rag, str), faults, r,
                     old(service.repository.jobTrail), service.repository.jobTrail)
      ensures request.title != "" ==>
                CompiledUnder(old(service.repository.View()), service.repository.View(), request.tenantId, request.slug, request.title, r)
      ensures r.Ok? ==> StoresAnswerTo(old(service.repository.View()), service.repository.View(), request, rag, r.value.page, str)
    {
      RequestWritesOnePage(service.repository.View(), request, rag, faults, str);
      ghost var db, trail := service.repository.View(), service.repository.jobTrail;
      ghost var requested := RequestedPlan(db, request, rag, str);
      RequestedPlanIsPlan(db, request, rag, str);
      CompileEndsItsJob(db, request, requested, faults);
      var started := StartJob(request, faults.start);
      if started.Err? {
        return Err(started.error);
      }
      var plan := PlanJob(request, str);
      PlanApartFromJobs(db, request, rag, str);
      r := SaveJob(started.value, request, plan, faults, db, trail);
      if r.Ok? {
        CompileStoresAnswer(db, request, rag, faults, str);
      }
    }

    method StartJob(request: Request, fault: Option<StartFault>) returns (r: Result<JobId, string>)
      modifies service.repository`jobs, service.repository`jobTrail
      ensures var before, after, id := old(service.repository.View()), service.repository.View(), |old(service.repository.jobs)|;
              var trail := old(service.repository.jobTrail);
              match fault
              case Some(Creating(message)) => r == Err(message) && after == before && service.repository.jobTrail == trail
              case Some(Starting(message)) =>
                && r == Err(message) && after == before.(jobs := before.jobs + [JobRow(request, Pending)])
                && service.repository.jobTrail == trail + [(id, Pending)]
              case None =>
                r == Ok(id) && after == Started(before, request) && service.repository.jobTrail == trail + [(id, Pending), (id, Processing)]
    {
      if fault.Some? && fault.value.Creating? {
        return Err(fault.value.message);
      }
      var id := service.repository.CreateCompileJob(request.tenantId, request.jobSource, Some(request.slug));
      if fault.Some? {
        return Err(fault.value.message);
      }
      var _ := service.repository.UpdateCompileJobStatus(id, Processing, None);
      return Ok(id);
    }

    /** The job succeeds if the body did, and otherwise fails with its exception's message,
        unless that raises as well. */
    method EndJob(id: JobId, request: Request, body: Result<CompiledPage, string>, failing: Option<string>, ghost db: Db)
      requires id == |db.jobs| && service.repository.jobs == Started(db, request).jobs
      modifies service.repository`jobs, service.repository`jobTrail
      ensures service.repository.jobs ==
              db.jobs + [if body.Err? && failing.Some? then JobRow(request, Processing) else EndedJob(request, body)]
      ensures service.repository.jobTrail ==
              old(service.repository.jobTrail) + (if body.Ok? then [(id, Succeeded)] else if failing.None? then [(id, Failed)] else [])
    {
      if body.Ok? {
        var _ := service.repository.UpdateCompileJobStatus(id, Succeeded, None);
      } else if failing.None? {
        var _ := service.repository.UpdateCompileJobStatus(id, Failed, Some(body.error));
      }
    }

    method PlanJob(request: Request, str: Printer) returns (plan: Result<Plan, string>)
      ensures plan == RequestedPlan(service.repository.View(), request, rag, str)
    {
      var answer := rag(request.query);
      if answer.Err? {
        return Err(answer.error);
      }
      var sources := ExtractSources(answer.value.metadata, request.query, request.evidenceSource, str);
      var evidence := CompilerEvidence(request.query, answer.value.answer, answer.value.metadata, request.evidenceSource, sources);
      var rendered := RenderPlan(request.tenantId, request.slug, evidence, Some(request.title), str);
      return Ok(rendered);
    }

    /** The rest of a started job, once its plan is known. */
    method SaveJob(id: JobId, request: Request, plan: Result<Plan, string>, faults: JobFaults, ghost db: Db,
                   ghost trail: seq<(JobId, JobStatus)>)
      returns (r: Result<CompileResult, string>)
      requires StoreInv(db) && (plan.Ok? ==> IsPlan(plan.value)) && faults.start.None?
      requires id == |db.jobs| && service.repository.View() == Started(db, request)
      requires service.repository.jobTrail == trail + [(id, Pending), (id, Processing)]
      modifies service.repository
      ensures JobRan(db, service.repository.View(), request, plan, faults, r, trail, service.repository.jobTrail)
    {
      StartedKeeps(db, request);
      CompileEndsItsJob(db, request, plan, faults);
      var body := RunBody(plan, faults.body);
      ProcessedIs(db, request, plan, faults.body, service.repository.View(), body);
      EndJob(id, request, body, faults.failing, db);
      return if body.Ok? then Ok(CompileResult(id, body.value))
             else Err(if faults.failing.Some? then faults.failing.value else body.error);
    }

    method RunBody(plan: Result<Plan, string>, fault: Option<Fault>) returns (body: Result<CompiledPage, string>)
      requires StoreInv(service.repository.View()) && (plan.Ok? ==> IsPlan(plan.value))
      modifies service.repository`pages, service.repository`revisions, service.repository`links,
               service.repository`claims, service.repository`sources
      ensures (service.repository.View(), body) == Body(old(service.repository.View()), plan, fault)
    {
      if plan.Err? {
        return Err(plan.error);
      }
      body := SavePlan(plan.value, fault);
      if body.Ok? && fault.Some? && fault.value.after == body.value.claimCount + 1 {
        body := Err(fault.value.message);
      }
    }

    method CompileSourceToPages(tenant: string, sourceId: string, target: Option<string>, quoted: Quoting,
                                faults: JobFaults, str: Printer) returns (r: Result<CompileResult, string>)
      requires StoreInv(service.repository.View())
      modifies service.repository
      ensures match SourceRequest(tenant, sourceId, target, quoted)
              case Err(message) => r == Err(message) && service.repository.View() == old(service.repository.View())
              case Ok(request) =>
                var before := old(service.repository.View());
                && JobRan(before, service.repository.View(), request, RequestedPlan(before, request, rag, str), faults, r,
                          old(service.repository.jobTrail), service.repository.jobTrail)
                && (r.Ok? ==> StoresAnswerTo(before, service.repository.View(), request, rag, r.value.page, str))
      ensures Strip(sourceId) == "" || PageSlug(target, "Source " + Strip(sourceId)) == "" ==> r.Err?
      ensures CompiledUnder(old(service.repository.View()), service.repository.View(), tenant,
                            PageSlug(target, "Source " + Strip(sourceId)), "Source " + Strip(sourceId), r)
    {
      SourceRequestIsRequest(tenant, sourceId, target, quoted);
      var request :- SourceRequest(tenant, sourceId, target, quoted);
      r := RunJob(request, faults, str);
    }

    method CompileTopicPage(tenant: string, topic: string, query: string, sourceId: Option<string>, target: Option<string>,
                            quoted: Quoting, faults: JobFaults, str: Printer) returns (r: Result<CompileResult, string>)
      requires StoreInv(service.repository.View())
      modifies service.repository
      ensures match TopicRequest(tenant, topic, query, sourceId, target, quoted)
              case Err(message) => r == Err(message) && service.repository.View() == old(service.repository.View())
              case Ok(request) =>
                var before := old(service.repository.View());
                && JobRan(before, service.repository.View(), request, RequestedPlan(before, request, rag, str), faults, r,
                          old(service.repository.jobTrail), service.repository.jobTrail)
                && (r.Ok? ==> StoresAnswerTo(before, service.repository.View(), request, rag, r.value.page, str))
      ensures Strip(topic) == "" || PageSlug(target, Strip(topic)) == "" ==> r.Err?
      ensures CompiledUnder(old(service.repository.View()), service.repository.View(), tenant,
                            PageSlug(target, Strip(topic)), Strip(topic), r)
    {
      TopicRequestIsRequest(tenant, topic, query, sourceId, target, quoted);
      var request :- TopicRequest(tenant, topic, query, sourceId, target, quoted);
      r := RunJob(request, faults, str);
    }
  }
}
