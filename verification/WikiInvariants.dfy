/** What every run of the wiki service keeps: unique pages, append-only numbered
    revisions, and a link index that agrees with the latest text of each page. */
module WikiInvariants {
  import opened Sequences
  import opened Slugs
  import opened Wikilinks
  import opened WikiStore

  // --------------------------------------------------------------- histories

  lemma {:induction false} HistoryFacts(revisions: seq<Revision>, p: PageId)
    ensures forall i :: 0 <= i < |History(revisions, p)| ==> History(revisions, p)[i].pageId == p
    ensures forall i :: 0 <= i < |revisions| && revisions[i].pageId == p ==> revisions[i] in History(revisions, p)
    ensures forall r :: r in History(revisions, p) ==> r in revisions
  {
    if revisions != [] {
      var init, last := revisions[..|revisions| - 1], revisions[|revisions| - 1];
      HistoryFacts(init, p);
      assert revisions == init + [last];
    }
  }

  lemma HistorySnoc(revisions: seq<Revision>, r: Revision, p: PageId)
    ensures History(revisions + [r], p) == History(revisions, p) + (if r.pageId == p then [r] else [])
    ensures MaxNo(revisions + [r], p) == if r.pageId == p && r.no > MaxNo(revisions, p) then r.no else MaxNo(revisions, p)
  {
    assert (revisions + [r])[..|revisions + [r]| - 1] == revisions;
  }

  /** The revision numbers of a history are exactly 1, 2, ..., n. */
  ghost predicate Numbered(history: seq<Revision>) {
    forall i :: 0 <= i < |history| ==> history[i].no == i + 1
  }

  lemma {:induction false} MaxNoIsCount(revisions: seq<Revision>, p: PageId)
    requires Numbered(History(revisions, p))
    ensures MaxNo(revisions, p) == |History(revisions, p)|
  {
    if revisions != [] {
      var init, last := revisions[..|revisions| - 1], revisions[|revisions| - 1];
      var h, h' := History(init, p), History(revisions, p);
      assert forall i :: 0 <= i < |h| ==> h[i] == h'[i];
      MaxNoIsCount(init, p);
      if last.pageId == p {
        assert h'[|h|] == last;
      }
    }
  }

  lemma NextNoIsFree(revisions: seq<Revision>, p: PageId)
    requires Numbered(History(revisions, p))
    ensures FindRevision(revisions, p, MaxNo(revisions, p) + 1) == None
  {
    MaxNoIsCount(revisions, p);
    HistoryFacts(revisions, p);
    forall i | 0 <= i < |revisions| && revisions[i].pageId == p ensures revisions[i].no <= MaxNo(revisions, p) {
      var h := History(revisions, p);
      var k :| 0 <= k < |h| && h[k] == revisions[i];
    }
  }

  // -------------------------------------------------------------- link index

  lemma {:induction false} LinksFromConcat(a: seq<Link>, b: seq<Link>, p: PageId)
    ensures LinksFrom(a + b, p) == LinksFrom(a, p) + LinksFrom(b, p)
  {
    if b == [] {
      assert a + b == a;
    } else {
      assert (a + b)[..|a + b| - 1] == a + b[..|b| - 1];
      LinksFromConcat(a, b[..|b| - 1], p);
    }
  }

  lemma {:induction false} LinksFromAll(links: seq<Link>, p: PageId, q: PageId)
    requires forall i :: 0 <= i < |links| ==> links[i].fromPage == p
    ensures LinksFrom(links, q) == if p == q then links else []
  {
    if links != [] {
      LinksFromAll(links[..|links| - 1], p, q);
      assert links == links[..|links| - 1] + [links[|links| - 1]];
    }
  }

  lemma LinksFromSnoc(links: seq<Link>, l: Link, p: PageId)
    ensures LinksFrom(links + [l], p) == if l.fromPage == p then LinksFrom(links, p) + [l] else LinksFrom(links, p)
  {
    assert (links + [l])[..|links + [l]| - 1] == links;
    ConcatUnit(LinksFrom(links, p));
  }

  lemma {:induction false} LinksFromDrop(links: seq<Link>, tenant: string, p: PageId, q: PageId)
    requires forall i :: 0 <= i < |links| && links[i].fromPage == p ==> links[i].tenantId == tenant
    ensures LinksFrom(DropLinks(links, tenant, p), q) == if p == q then [] else LinksFrom(links, q)
  {
    if links != [] {
      var init, last := links[..|links| - 1], links[|links| - 1];
      LinksFromDrop(init, tenant, p, q);
      ConcatUnit(DropLinks(init, tenant, p));
      LinksFromSnoc(DropLinks(init, tenant, p), last, q);
    }
  }

  lemma {:induction false} DropLinksMembers(links: seq<Link>, tenant: string, p: PageId, l: Link)
    ensures l in DropLinks(links, tenant, p) ==> l in links
  {
    if links != [] {
      DropLinksMembers(links[..|links| - 1], tenant, p, l);
    }
  }

  lemma LinksFromReplaced(links: seq<Link>, tenant: string, p: PageId, slugs: seq<string>, q: PageId)
    requires forall i :: 0 <= i < |links| && links[i].fromPage == p ==> links[i].tenantId == tenant
    ensures LinksFrom(ReplaceLinks(links, tenant, p, slugs), q) ==
            if p == q then NewLinks(tenant, p, Dedupe(slugs)) else LinksFrom(links, q)
  {
    LinksFromDrop(links, tenant, p, q);
    LinksFromAll(NewLinks(tenant, p, Dedupe(slugs)), p, q);
    LinksFromConcat(DropLinks(links, tenant, p), NewLinks(tenant, p, Dedupe(slugs)), q);
    ConcatUnit(LinksFrom(links, q));
  }

  /** The link targets that a page's text calls for: those of its highest-numbered
      revision, and none if that is not Markdown. */
  function LatestTargets(db: Db, p: PageId): seq<string> {
    var h := History(db.revisions, p);
    if h == [] || h[|h| - 1].format != MARKDOWN then [] else LinkedSlugs(h[|h| - 1].content)
  }

  // --------------------------------------------------------------- invariant

  ghost predicate PagesUnique(pages: seq<Page>) {
    forall p, q :: 0 <= p < q < |pages| ==> pages[p].tenantId != pages[q].tenantId || pages[p].slug != pages[q].slug
  }

  ghost predicate PageOk(db: Db, p: PageId)
    requires p < |db.pages|
  {
    var page := db.pages[p];
    && page.slug != "" && IsSlug(page.slug)
    && Numbered(History(db.revisions, p)) && History(db.revisions, p) != []
    && page.current.Some? && page.current.value < |db.revisions| && db.revisions[page.current.value].pageId == p
    && LinksFrom(db.links, p) == NewLinks(page.tenantId, p, LatestTargets(db, p))
  }

  ghost predicate RowsOk(db: Db) {
    && (forall r :: 0 <= r < |db.revisions| ==> db.revisions[r].pageId < |db.pages|)
    && (forall i :: 0 <= i < |db.links| ==>
          db.links[i].fromPage < |db.pages| && db.pages[db.links[i].fromPage].tenantId == db.links[i].tenantId)
    && (forall c :: 0 <= c < |db.claims| ==>
          db.claims[c].revisionId < |db.revisions| && db.revisions[db.claims[c].revisionId].pageId == db.claims[c].pageId)
    && (forall k :: 0 <= k < |db.sources| ==> db.sources[k].claimId < |db.claims|)
  }

  ghost predicate StoreInv(db: Db) {
    && PagesUnique(db.pages)
    && RowsOk(db)
    && forall p :: 0 <= p < |db.pages| ==> PageOk(db, p)
  }

  /** The store between preparing a page row and revising it: only page `p` may still
      lack its first revision. */
  ghost predicate Preparing(db: Db, p: PageId) {
    && p < |db.pages|
    && PagesUnique(db.pages)
    && RowsOk(db)
    && db.pages[p].slug != "" && IsSlug(db.pages[p].slug)
    && Numbered(History(db.revisions, p))
    && forall q :: 0 <= q < |db.pages| && q != p ==> PageOk(db, q)
  }

  lemma {:induction false} NoHistoryOfNewPage(revisions: seq<Revision>, p: PageId)
    requires forall r :: 0 <= r < |revisions| ==> revisions[r].pageId != p
    ensures History(revisions, p) == []
  {
    if revisions != [] {
      NoHistoryOfNewPage(revisions[..|revisions| - 1], p);
    }
  }

  lemma PreparePageKeeps(db: Db, input: PageInput, slug: string)
    requires StoreInv(db) && slug != "" && IsSlug(slug)
    ensures var (db1, p) := PreparePage(db, input, slug);
            && Preparing(db1, p)
            && db1.revisions == db.revisions && db1.links == db.links && db1.claims == db.claims && db1.sources == db.sources
            && db1.pages[p].slug == slug && db1.pages[p].tenantId == input.tenantId
  {
    var (db1, p) := PreparePage(db, input, slug);
    if p == |db.pages| {
      NoHistoryOfNewPage(db.revisions, p);
    } else {
      assert PageOk(db, p);
    }
    forall q | 0 <= q < |db1.pages| && q != p ensures PageOk(db1, q) {
      assert PageOk(db, q);
      assert db1.pages[q] == db.pages[q];
    }
  }

  /** What revising a page does to the rows. */
  lemma ReviseShape(db: Db, p: PageId, format: string, content: string, summary: Option<string>, author: string)
    requires p < |db.pages| && Numbered(History(db.revisions, p))
    ensures var (db', id) := Revise(db, p, format, content, summary, author);
            var slugs := if format == MARKDOWN then LinkedSlugs(content) else [];
            && id == |db.revisions|
            && db'.revisions == db.revisions + [Revision(p, |History(db.revisions, p)| + 1, format, content, summary, author)]
            && db'.pages == db.pages[p := db.pages[p].(current := Some(id))]
            && db'.links == ReplaceLinks(db.links, db.pages[p].tenantId, p, slugs)
            && db'.claims == db.claims && db'.sources == db.sources && db'.results == db.results && db'.jobs == db.jobs
  {
    NextNoIsFree(db.revisions, p);
    MaxNoIsCount(db.revisions, p);
  }

  lemma ReviseKeepsPage(db: Db, p: PageId, format: string, content: string, summary: Option<string>, author: string, q: PageId)
    requires Preparing(db, p) && q < |db.pages| && q != p
    ensures PageOk(Revise(db, p, format, content, summary, author).0, q)
  {
    var db' := Revise(db, p, format, content, summary, author).0;
    ReviseShape(db, p, format, content, summary, author);
    var slugs := if format == MARKDOWN then LinkedSlugs(content) else [];
    var revision := db'.revisions[|db.revisions|];
    HistorySnoc(db.revisions, revision, q);
    LinksFromReplaced(db.links, db.pages[p].tenantId, p, slugs, q);
    assert PageOk(db, q);
    assert History(db.revisions, q) + [] == History(db.revisions, q);
    assert LatestTargets(db', q) == LatestTargets(db, q);
  }

  lemma LatestAfterSnoc(db: Db, db': Db, p: PageId, revision: Revision)
    requires db'.revisions == db.revisions + [revision] && revision.pageId == p
    requires Numbered(History(db.revisions, p)) && revision.no == |History(db.revisions, p)| + 1
    ensures Numbered(History(db'.revisions, p)) && History(db'.revisions, p) != []
    ensures LatestTargets(db', p) == if revision.format == MARKDOWN then LinkedSlugs(revision.content) else []
  {
    HistorySnoc(db.revisions, revision, p);
    var h := History(db'.revisions, p);
    assert h == History(db.revisions, p) + [revision];
    assert h[|h| - 1] == revision;
  }

  lemma RevisedPageOk(db: Db, db': Db, p: PageId, revision: Revision)
    requires Preparing(db, p)
    requires db'.revisions == db.revisions + [revision] && revision.pageId == p && revision.no == |History(db.revisions, p)| + 1
    requires db'.pages == db.pages[p := db.pages[p].(current := Some(|db.revisions|))]
    requires var slugs := if revision.format == MARKDOWN then LinkedSlugs(revision.content) else [];
             db'.links == ReplaceLinks(db.links, db.pages[p].tenantId, p, slugs)
    ensures PageOk(db', p)
  {
    LatestAfterSnoc(db, db', p, revision);
    LatestTargetsDistinct(db', p);
    DedupeOfDistinct(LatestTargets(db', p));
    LinksFromReplaced(db.links, db.pages[p].tenantId, p, LatestTargets(db', p), p);
  }

  lemma ReviseKeepsRows(db: Db, p: PageId, format: string, content: string, summary: Option<string>, author: string)
    requires Preparing(db, p)
    ensures var db' := Revise(db, p, format, content, summary, author).0; RowsOk(db') && PagesUnique(db'.pages)
  {
    var db' := Revise(db, p, format, content, summary, author).0;
    ReviseShape(db, p, format, content, summary, author);
    var tenant := db.pages[p].tenantId;
    var slugs := if format == MARKDOWN then LinkedSlugs(content) else [];
    var kept := DropLinks(db.links, tenant, p);
    forall i | 0 <= i < |db'.links|
      ensures db'.links[i].fromPage < |db'.pages| && db'.pages[db'.links[i].fromPage].tenantId == db'.links[i].tenantId
    {
      if i < |kept| {
        assert kept[i] in kept;
        DropLinksMembers(db.links, tenant, p, kept[i]);
        var k :| 0 <= k < |db.links| && db.links[k] == kept[i];
      } else {
        assert db'.links[i] == NewLinks(tenant, p, Dedupe(slugs))[i - |kept|];
      }
    }
  }

  lemma ReviseKeeps(db: Db, p: PageId, format: string, content: string, summary: Option<string>, author: string)
    requires Preparing(db, p)
    ensures StoreInv(Revise(db, p, format, content, summary, author).0)
  {
    var db' := Revise(db, p, format, content, summary, author).0;
    ReviseShape(db, p, format, content, summary, author);
    ReviseKeepsRows(db, p, format, content, summary, author);
    forall q | 0 <= q < |db.pages| ensures PageOk(Revise(db, p, format, content, summary, author).0, q) {
      if q == p {
        RevisedPageOk(db, db', p, db'.revisions[|db.revisions|]);
      } else {
        ReviseKeepsPage(db, p, format, content, summary, author, q);
      }
    }
  }

  lemma StoreIsPreparing(db: Db, p: PageId)
    requires StoreInv(db) && p < |db.pages|
    ensures Preparing(db, p)
  {
    assert PageOk(db, p);
  }

  lemma SavePageKeeps(db: Db, input: PageInput)
    requires StoreInv(db)
    ensures StoreInv(Perform(db, SavePage(input))) && db.revisions <= Perform(db, SavePage(input)).revisions
  {
    var slug := Slugify(SlugSource(input));
    if slug != "" {
      SlugifyNormalForm(SlugSource(input));
      PreparePageKeeps(db, input, slug);
      var (db1, p) := PreparePage(db, input, slug);
      ReviseKeeps(db1, p, input.format, input.content, input.summary, input.authorType);
      ReviseShape(db1, p, input.format, input.content, input.summary, input.authorType);
    }
  }

  lemma SaveRevisionKeeps(db: Db, tenant: string, slug: string, format: string, content: string,
                          summary: Option<string>, author: string)
    requires StoreInv(db)
    ensures var db' := Perform(db, SaveRevision(tenant, slug, format, content, summary, author));
            StoreInv(db') && db.revisions <= db'.revisions
  {
    var r := CreateRevision(db, tenant, slug, format, content, summary, author);
    if r.Ok? {
      var p := r.value.1.page;
      StoreIsPreparing(db, p);
      ReviseKeeps(db, p, format, content, summary, author);
      ReviseShape(db, p, format, content, summary, author);
    }
  }

  lemma FoundRevisionIsThere(db: Db, p: PageId, no: Option<nat>)
    requires StoreInv(db) && p < |db.pages|
    ensures var id := if no.Some? then FindRevision(db.revisions, p, no.value) else CurrentRevision(db, p);
            id.Some? ==> id.value < |db.revisions| && db.revisions[id.value].pageId == p
  {
    assert PageOk(db, p);
  }

  lemma PublishKeeps(db: Db, tenant: string, slug: string, no: Option<nat>)
    requires StoreInv(db)
    ensures var db' := Perform(db, Publish(tenant, slug, no)); StoreInv(db') && db'.revisions == db.revisions && db'.links == db.links
  {
    var db' := Perform(db, Publish(tenant, slug, no));
    var r := PublishPage(db, tenant, slug, no);
    if r.Ok? {
      var p := r.value.1.page;
      FoundRevisionIsThere(db, p, no);
      forall q | 0 <= q < |db'.pages| ensures PageOk(db', q) {
        assert PageOk(db, q);
      }
    }
  }

  lemma SaveClaimKeeps(db: Db, tenant: string, slug: string, text: string, inputs: seq<ClaimSourceInput>,
                       support: string, confidence: Option<real>)
    requires StoreInv(db)
    ensures var db' := Perform(db, SaveClaim(tenant, slug, text, inputs, support, confidence));
            StoreInv(db') && db'.revisions == db.revisions && db'.pages == db.pages && db'.links == db.links
  {
    var db' := Perform(db, SaveClaim(tenant, slug, text, inputs, support, confidence));
    var r := AddClaim(db, tenant, slug, text, inputs, support, confidence);
    if r.Ok? {
      var p := FindPage(db.pages, tenant, Slugify(slug)).value;
      FoundRevisionIsThere(db, p, None);
      forall q | 0 <= q < |db'.pages| ensures PageOk(db', q) {
        assert PageOk(db, q);
      }
    }
  }

  /** Every service operation keeps the invariant and only appends revisions. */
  lemma PerformKeeps(db: Db, op: Op)
    requires StoreInv(db)
    ensures StoreInv(Perform(db, op)) && db.revisions <= Perform(db, op).revisions
  {
    match op {
      case SavePage(input) => SavePageKeeps(db, input);
      case SaveRevision(tenant, slug, format, content, summary, author) =>
        SaveRevisionKeeps(db, tenant, slug, format, content, summary, author);
      case Publish(tenant, slug, no) => PublishKeeps(db, tenant, slug, no);
      case SaveClaim(tenant, slug, text, inputs, support, confidence) =>
        SaveClaimKeeps(db, tenant, slug, text, inputs, support, confidence);
    }
  }

  /** Revision history is append-only over any run of the service: each page's numbers are
      exactly 1..n, no stored revision ever changes, and the current revision of a page,
      an older published one included, is one of its own. */
  lemma {:induction false} RunKeeps(db: Db, ops: seq<Op>)
    requires StoreInv(db)
    ensures StoreInv(PerformAll(db, ops)) && db.revisions <= PerformAll(db, ops).revisions
    decreases |ops|
  {
    if ops != [] {
      PerformKeeps(db, ops[0]);
      RunKeeps(Perform(db, ops[0]), ops[1..]);
    }
  }

  lemma EmptyStoreIsValid()
    ensures StoreInv(EMPTY)
  {
  }

  /** Called with a revision number, the repository may overwrite a stored revision: it
      leaves every stored revision as it is exactly when the page has no revision of that
      number, or has it with the same text and attributes. */
  lemma UpsertPreservesHistory(db: Db, p: PageId, no: nat, format: string, content: string,
                               summary: Option<string>, author: string, setCurrent: bool)
    requires p < |db.pages|
    ensures var db' := UpsertRevision(db, p, Some(no), format, content, summary, author, setCurrent).0;
            var found := FindRevision(db.revisions, p, no);
            db.revisions <= db'.revisions <==>
            found == None || db.revisions[found.value] == Revision(p, no, format, content, summary, author)
  {
    var db' := UpsertRevision(db, p, Some(no), format, content, summary, author, setCurrent).0;
    var found := FindRevision(db.revisions, p, no);
    if found.Some? {
      assert db'.revisions[found.value] == Revision(p, no, format, content, summary, author);
    }
  }

  /** The other cases of the repository's upsert: a number that the page does not have is appended
      under that number; one that it has is overwritten in place and keeps its id; no other stored
      revision changes, and only the page's current revision, and only if asked. */
  lemma NumberedUpsert(db: Db, p: PageId, no: nat, format: string, content: string,
                       summary: Option<string>, author: string, setCurrent: bool, other: RevisionId)
    requires p < |db.pages| && other < |db.revisions|
    ensures var (db', id) := UpsertRevision(db, p, Some(no), format, content, summary, author, setCurrent);
            && db' == db.(pages := db'.pages, revisions := db'.revisions)
            && id < |db'.revisions| && db'.revisions[id] == Revision(p, no, format, content, summary, author)
            && (if forall i :: 0 <= i < |db.revisions| ==> db.revisions[i].pageId != p || db.revisions[i].no != no
                then id == |db.revisions| && |db'.revisions| == |db.revisions| + 1
                else |db'.revisions| == |db.revisions| && db.revisions[id].pageId == p && db.revisions[id].no == no)
            && (other != id ==> db'.revisions[other] == db.revisions[other])
            && db'.pages == if setCurrent then db.pages[p := db.pages[p].(current := Some(id))] else db.pages
  {
    var found := FindRevision(db.revisions, p, no);
    if found.Some? {
      assert db.revisions[found.value].pageId == p;
    }
  }

  // ------------------------------------------------------------ consequences

  lemma FoundPageIs(db: Db, p: PageId)
    requires PagesUnique(db.pages) && p < |db.pages|
    ensures FindPage(db.pages, db.pages[p].tenantId, db.pages[p].slug) == Some(p)
  {
    var q := FindPage(db.pages, db.pages[p].tenantId, db.pages[p].slug);
    assert q.Some?;
    assert q.value <= p && p <= q.value;
  }

  /** A page saved under one spelling of its name is found under every spelling with the
      same slug, with the saved revision as its current one. */
  lemma SavedPageIsFound(db: Db, input: PageInput, spelling: string)
    requires StoreInv(db)
    requires Slugify(spelling) == Slugify(if input.slug == None || input.slug == Some("") then input.title else input.slug.value) != ""
    ensures var r := CreateOrUpdatePage(db, input);
            && r.Ok?
            && GetPage(r.value.0, input.tenantId, spelling) == Ok((r.value.1.page, Some(r.value.1.revision)))
            && r.value.0.pages[r.value.1.page].title == input.title
            && r.value.1.revision == |db.revisions|
            && r.value.0.revisions == db.revisions + [Revision(r.value.1.page, |History(db.revisions, r.value.1.page)| + 1,
                 input.format, input.content, input.summary, input.authorType)]
  {
    var slug := Slugify(SlugSource(input));
    SavePageKeeps(db, input);
    SlugifyNormalForm(SlugSource(input));
    PreparePageKeeps(db, input, slug);
    var (db1, p) := PreparePage(db, input, slug);
    ReviseShape(db1, p, input.format, input.content, input.summary, input.authorType);
    var db2 := CreateOrUpdatePage(db, input).value.0;
    FoundPageIs(db2, p);
  }

  /** A revision is added to the page of a slug in any spelling: it takes the next number of that
      page, holds what was given, and becomes current; that page's links become those of the new
      text. Nothing else changes, and without such a page nothing does. */
  lemma RevisionIsAppended(db: Db, tenant: string, spelling: string, format: string, content: string,
                           summary: Option<string>, author: string, q: PageId)
    requires StoreInv(db) && q < |db.pages|
    ensures var r, slug := CreateRevision(db, tenant, spelling, format, content, summary, author), Slugify(spelling);
            if slug == "" then r == Err(EmptySlug)
            else match FindPage(db.pages, tenant, slug)
                 case None => r == Err(PageNotFound(slug))
                 case Some(p) =>
                   && r.Ok? && r.value.1 == Detail(p, |db.revisions|)
                   && RevisedBy(db, r.value.0, p, Revision(p, |History(db.revisions, p)| + 1, format, content, summary, author), q)
  {
    var found := FindPage(db.pages, tenant, Slugify(spelling));
    if found.Some? {
      assert PageOk(db, found.value);
      RevisedShape(db, found.value, format, content, summary, author, q);
    }
  }

  /** Page `p` has one more revision, which is current and which its links come from; page `q`, if
      it is another one, keeps its history and links, and no other table changes. */
  ghost predicate RevisedBy(db: Db, db': Db, p: PageId, revision: Revision, q: PageId)
    requires p < |db.pages|
  {
    && db'.pages == db.pages[p := db.pages[p].(current := Some(|db.revisions|))]
    && db'.revisions == db.revisions + [revision]
    && LinksFrom(db'.links, p) ==
       NewLinks(db.pages[p].tenantId, p, if revision.format == "markdown" then LinkedSlugs(revision.content) else [])
    && (q != p ==> LinksFrom(db'.links, q) == LinksFrom(db.links, q) && History(db'.revisions, q) == History(db.revisions, q))
    && db'.claims == db.claims && db'.sources == db.sources && db'.results == db.results && db'.jobs == db.jobs
  }

  lemma RevisedShape(db: Db, p: PageId, format: string, content: string, summary: Option<string>, author: string, q: PageId)
    requires StoreInv(db) && p < |db.pages|
    ensures var (db', id) := Revise(db, p, format, content, summary, author);
            id == |db.revisions| &&
            RevisedBy(db, db', p, Revision(p, |History(db.revisions, p)| + 1, format, content, summary, author), q)
  {
    var slugs := if format == MARKDOWN then LinkedSlugs(content) else [];
    assert PageOk(db, p);
    ReviseShape(db, p, format, content, summary, author);
    LinksFromReplaced(db.links, db.pages[p].tenantId, p, slugs, p);
    LinksFromReplaced(db.links, db.pages[p].tenantId, p, slugs, q);
    HistorySnoc(db.revisions, Revision(p, |History(db.revisions, p)| + 1, format, content, summary, author), q);
    if format == MARKDOWN {
      DedupeMembers(LinkSlugs(content));
      DedupeOfDistinct(slugs);
    }
  }

  lemma HistoryByNumber(db: Db, p: PageId, no: nat)
    requires StoreInv(db) && p < |db.pages|
    ensures var h, found := History(db.revisions, p), FindRevision(db.revisions, p, no);
            && (found.Some? <==> 1 <= no <= |h|)
            && (found.Some? ==> db.revisions[found.value] == h[no - 1])
  {
    var h, found := History(db.revisions, p), FindRevision(db.revisions, p, no);
    assert PageOk(db, p);
    HistoryFacts(db.revisions, p);
    if found.Some? {
      var k :| 0 <= k < |h| && h[k] == db.revisions[found.value];
    }
    if 1 <= no <= |h| {
      assert h[no - 1] in db.revisions;
      var i :| 0 <= i < |db.revisions| && db.revisions[i] == h[no - 1];
    }
  }

  /** Publishing finds the page under any spelling; without a number its current revision stays
      current, and with one exactly the numbers of its history are accepted and the revision of
      that number becomes current. Its status becomes published, and nothing else changes. */
  lemma PublishingChooses(db: Db, tenant: string, spelling: string, no: Option<nat>)
    requires StoreInv(db)
    ensures var r, slug := PublishPage(db, tenant, spelling, no), Slugify(spelling);
            if slug == "" then r == Err(EmptySlug)
            else match FindPage(db.pages, tenant, slug)
                 case None => r == Err(PageNotFound(slug))
                 case Some(p) =>
                   var h, page := History(db.revisions, p), db.pages[p];
                   match no
                   case None =>
                     && page.current.Some?
                     && r == Ok((db.(pages := db.pages[p := page.(status := "published")]), Detail(p, page.current.value)))
                   case Some(n) =>
                     if n == 0 || n > |h| then r == Err(NoSuchRevision(slug, n))
                     else
                       && r.Ok? && r.value.1.page == p && r.value.1.revision < |db.revisions|
                       && db.revisions[r.value.1.revision] == h[n - 1]
                       && r.value.0 == db.(pages := db.pages[p := page.(current := Some(r.value.1.revision), status := "published")])
  {
    var found := FindPage(db.pages, tenant, Slugify(spelling));
    if found.Some? {
      assert PageOk(db, found.value);
      if no.Some? {
        HistoryByNumber(db, found.value, no.value);
      } else {
        var page := db.pages[found.value];
        assert page.(status := "published") == page.(current := page.current, status := "published");
      }
    }
  }

  /** A claim goes on the current revision of the page that any spelling finds, with the given text,
      support and confidence, and one row for each given source in order; nothing else changes. */
  lemma ClaimIsAttached(db: Db, tenant: string, spelling: string, text: string, inputs: seq<ClaimSourceInput>,
                        support: string, confidence: Option<real>)
    requires StoreInv(db)
    ensures var r, slug, id := AddClaim(db, tenant, spelling, text, inputs, support, confidence), Slugify(spelling), |db.claims|;
            if slug == "" then r == Err(EmptySlug)
            else match FindPage(db.pages, tenant, slug)
                 case None => r == Err(PageNotFound(slug))
                 case Some(p) =>
                   && r.Ok? && r.value.1 == id && db.pages[p].current.Some?
                   && var db' := r.value.0;
                      && db' == db.(claims := db'.claims, sources := db'.sources)
                      && db'.claims == db.claims + [Claim(tenant, p, db.pages[p].current.value, text, support, confidence)]
                      && |db'.sources| == |db.sources| + |inputs| && db'.sources[..|db.sources|] == db.sources
                      && forall i :: 0 <= i < |inputs| ==> db'.sources[|db.sources| + i] == ClaimSource(id, inputs[i])
  {
    var found := FindPage(db.pages, tenant, Slugify(spelling));
    if found.Some? {
      assert PageOk(db, found.value);
    }
  }

  /** Saving a page touches that page only: its title and type are the given ones, its status
      the given one, or else the one it had, or else draft; every other page keeps its row, its
      history and its links; claims, sources, results and jobs are as they were. */
  lemma SavePageTouchesOnePage(db: Db, input: PageInput, q: PageId)
    requires StoreInv(db) && Slugify(SlugSource(input)) != ""
    ensures var slug := Slugify(SlugSource(input));
            var r := CreateOrUpdatePage(db, input);
            && r.Ok?
            && var db', p, found := r.value.0, r.value.1.page, FindPage(db.pages, input.tenantId, slug);
               && p == (if found.Some? then found.value else |db.pages|)
               && |db'.pages| == (if found.Some? then |db.pages| else |db.pages| + 1)
               && db'.pages[p] == Page(input.tenantId, slug, input.title, input.pageType,
                                       StatusOf(input.status, if found.Some? then Some(db.pages[p].status) else None), Some(|db.revisions|))
               && (q < |db.pages| && q != p ==> db'.pages[q] == db.pages[q] && History(db'.revisions, q) == History(db.revisions, q)
                                                && LinksFrom(db'.links, q) == LinksFrom(db.links, q))
               && db' == db.(pages := db'.pages, revisions := db'.revisions, links := db'.links)
  {
    var slug := Slugify(SlugSource(input));
    SlugifyNormalForm(SlugSource(input));
    PreparePageKeeps(db, input, slug);
    var (db1, p) := PreparePage(db, input, slug);
    ReviseShape(db1, p, input.format, input.content, input.summary, input.authorType);
    if q < |db.pages| && q != p {
      ReviseTouchesOnePage(db1, p, input.format, input.content, input.summary, input.authorType, q);
    }
  }

  function StatusOf(given: Option<string>, had: Option<string>): string {
    match had
    case Some(status) => if given.Some? then given.value else status
    case None => if given.Some? && given.value != "" then given.value else "draft"
  }

  lemma ReviseTouchesOnePage(db: Db, p: PageId, format: string, content: string, summary: Option<string>, author: string, q: PageId)
    requires Preparing(db, p) && q != p
    ensures var db' := Revise(db, p, format, content, summary, author).0;
            History(db'.revisions, q) == History(db.revisions, q) && LinksFrom(db'.links, q) == LinksFrom(db.links, q)
  {
    var db' := Revise(db, p, format, content, summary, author).0;
    ReviseShape(db, p, format, content, summary, author);
    HistorySnoc(db.revisions, db'.revisions[|db.revisions|], q);
    LinksFromReplaced(db.links, db.pages[p].tenantId, p, if format == MARKDOWN then LinkedSlugs(content) else [], q);
    ConcatUnit(History(db.revisions, q));
  }

  // ---------------------------------------------------------------- backlinks

  lemma {:induction false} BacklinksMember(links: seq<Link>, pages: seq<Page>, tenant: string, slug: string, p: PageId)
    requires forall i :: 0 <= i < |links| ==> links[i].fromPage < |pages| && pages[links[i].fromPage].tenantId == links[i].tenantId
    ensures p in BacklinksIn(links, pages, tenant, slug) <==>
            p < |pages| && pages[p].tenantId == tenant && exists i :: 0 <= i < |links| && links[i].fromPage == p && links[i].toSlug == slug
  {
    if links != [] {
      var init, last := links[..|links| - 1], links[|links| - 1];
      BacklinksMember(init, pages, tenant, slug, p);
      assert links == init + [last];
      if exists i :: 0 <= i < |links| && links[i].fromPage == p && links[i].toSlug == slug {
        var i :| 0 <= i < |links| && links[i].fromPage == p && links[i].toSlug == slug;
        assert i < |init| ==> init[i] == links[i];
      }
      assert forall i :: 0 <= i < |init| ==> init[i] == links[i];
    }
  }

  lemma {:induction false} LinksFromMember(links: seq<Link>, p: PageId, l: Link)
    ensures l in LinksFrom(links, p) <==> l in links && l.fromPage == p
  {
    if links != [] {
      LinksFromMember(links[..|links| - 1], p, l);
      assert links == links[..|links| - 1] + [links[|links| - 1]];
    }
  }

  /** No page occurs twice among the backlinks when no page holds a link row twice. */
  lemma {:induction false} BacklinksDistinct(links: seq<Link>, pages: seq<Page>, tenant: string, slug: string)
    requires forall i :: 0 <= i < |links| ==>
               links[i].linkType == WIKILINK && links[i].fromPage < |pages| && pages[links[i].fromPage].tenantId == links[i].tenantId
    requires forall p :: 0 <= p < |pages| ==> Distinct(LinksFrom(links, p))
    ensures Distinct(BacklinksIn(links, pages, tenant, slug))
  {
    if links != [] {
      var init, last := links[..|links| - 1], links[|links| - 1];
      assert forall i :: 0 <= i < |init| ==> init[i] == links[i];
      forall p | 0 <= p < |pages| ensures Distinct(LinksFrom(init, p)) {
        var all := LinksFrom(links, p);
        assert LinksFrom(init, p) == all[..|LinksFrom(init, p)|];
      }
      BacklinksDistinct(init, pages, tenant, slug);
      var p := last.fromPage;
      var mine := LinksFrom(links, p);
      assert mine == LinksFrom(init, p) + [last];
      assert forall k :: 0 <= k < |LinksFrom(init, p)| ==> LinksFrom(init, p)[k] == mine[k] != mine[|mine| - 1];
      assert last !in LinksFrom(init, p);
      forall i | 0 <= i < |init| && init[i].fromPage == p && init[i].tenantId == last.tenantId
        ensures init[i].toSlug != last.toSlug
      {
        LinksFromMember(init, p, init[i]);
        assert init[i] == links[i];
      }
      BacklinksMember(init, pages, tenant, slug, p);
    }
  }

  lemma LinkRowsAreWikilinks(db: Db, i: nat)
    requires StoreInv(db) && i < |db.links|
    ensures db.links[i].linkType == WIKILINK && db.links[i].toSlug in LatestTargets(db, db.links[i].fromPage)
  {
    var p := db.links[i].fromPage;
    assert PageOk(db, p);
    LinksFromMember(db.links, p, db.links[i]);
    var k :| 0 <= k < |LinksFrom(db.links, p)| && LinksFrom(db.links, p)[k] == db.links[i];
  }

  lemma LatestTargetsDistinct(db: Db, p: PageId)
    ensures Distinct(LatestTargets(db, p))
  {
    var h := History(db.revisions, p);
    if h != [] {
      DedupeMembers(LinkSlugs(h[|h| - 1].content));
    }
  }

  /** The backlinks of a slug are exactly the pages of the tenant whose latest text links
      to it, once each. */
  lemma BacklinksAreExact(db: Db, tenant: string, slug: string)
    requires StoreInv(db)
    ensures forall p: nat :: p in Backlinks(db, tenant, slug) <==>
                        p < |db.pages| && db.pages[p].tenantId == tenant && slug in LatestTargets(db, p)
    ensures Distinct(Backlinks(db, tenant, slug))
  {
    forall p: nat ensures p in Backlinks(db, tenant, slug) <==>
                     p < |db.pages| && db.pages[p].tenantId == tenant && slug in LatestTargets(db, p)
    {
      BacklinksMember(db.links, db.pages, tenant, slug, p);
      if p < |db.pages| && slug in LatestTargets(db, p) {
        assert PageOk(db, p);
        var k :| 0 <= k < |LatestTargets(db, p)| && LatestTargets(db, p)[k] == slug;
        var l := LinksFrom(db.links, p)[k];
        assert l in LinksFrom(db.links, p);
        LinksFromMember(db.links, p, l);
        var i :| 0 <= i < |db.links| && db.links[i] == l;
      }
      forall i | 0 <= i < |db.links| ensures db.links[i].toSlug in LatestTargets(db, db.links[i].fromPage) {
        LinkRowsAreWikilinks(db, i);
      }
    }
    forall i | 0 <= i < |db.links| ensures db.links[i].linkType == WIKILINK {
      LinkRowsAreWikilinks(db, i);
    }
    forall p | 0 <= p < |db.pages| ensures Distinct(LinksFrom(db.links, p)) {
      assert PageOk(db, p);
      LatestTargetsDistinct(db, p);
    }
    BacklinksDistinct(db.links, db.pages, tenant, slug);
  }

  /** The index follows the latest revision, not the current one: after publishing, a
      page's link targets are those of its current text exactly when that text links to
      what the latest text links to. */
  lemma IndexFollowsLatest(db: Db, p: PageId)
    requires StoreInv(db) && p < |db.pages|
    ensures db.pages[p].current.Some? && db.pages[p].current.value < |db.revisions|
    ensures var r := db.revisions[db.pages[p].current.value];
            var targets := if r.format == MARKDOWN then LinkedSlugs(r.content) else [];
            LinksFrom(db.links, p) == NewLinks(db.pages[p].tenantId, p, targets) <==> targets == LatestTargets(db, p)
  {
    assert PageOk(db, p);
    var r := db.revisions[db.pages[p].current.value];
    var targets := if r.format == MARKDOWN then LinkedSlugs(r.content) else [];
    var mine := NewLinks(db.pages[p].tenantId, p, targets);
    var latest := NewLinks(db.pages[p].tenantId, p, LatestTargets(db, p));
    if mine == latest {
      forall i | 0 <= i < |targets| ensures targets[i] == LatestTargets(db, p)[i] {
        assert mine[i] == latest[i];
      }
    }
  }

  // ---------------------------------------- publishing an older revision

  /** Save a page, revise it, and publish the first revision again. */
  function PublishOlder(input: PageInput, slug: string, later: string): seq<Op> {
    [SavePage(input), SaveRevision(input.tenantId, slug, MARKDOWN, later, None, input.authorType), Publish(input.tenantId, slug, Some(1))]
  }

  lemma PerformThree(db: Db, a: Op, b: Op, c: Op)
    ensures PerformAll(db, [a, b, c]) == Perform(Perform(Perform(db, a), b), c)
  {
    var db1, db2 := Perform(db, a), Perform(Perform(db, a), b);
    assert [a, b, c][1..] == [b, c] && [b, c][1..] == [c] && [c][1..] == [];
    assert PerformAll(db2, [c]) == PerformAll(Perform(db2, c), []);
    assert PerformAll(db1, [b, c]) == PerformAll(db2, [c]);
  }

  lemma NewPageSaved(db: Db, input: PageInput, slug: string)
    requires StoreInv(db) && input.slug == Some(slug) && slug != "" && IsSlug(slug) && FindPage(db.pages, input.tenantId, slug) == None
    ensures var db1, p := Perform(db, SavePage(input)), |db.pages|;
            && StoreInv(db1) && FindPage(db1.pages, input.tenantId, slug) == Some(p)
            && db1.revisions == db.revisions + [Revision(p, 1, input.format, input.content, input.summary, input.authorType)]
  {
    SlugifyNormalForm(slug);
    SavePageKeeps(db, input);
    NewPageRevision(db, input, slug);
    SavePageTouchesOnePage(db, input, 0);
    FoundPageIs(Perform(db, SavePage(input)), |db.pages|);
  }

  lemma NewPageRevision(db: Db, input: PageInput, slug: string)
    requires StoreInv(db) && input.slug == Some(slug) && slug != "" && IsSlug(slug) && FindPage(db.pages, input.tenantId, slug) == None
    requires Slugify(slug) == slug
    ensures Perform(db, SavePage(input)).revisions ==
            db.revisions + [Revision(|db.pages|, 1, input.format, input.content, input.summary, input.authorType)]
  {
    PreparePageKeeps(db, input, slug);
    NoHistoryOfNewPage(db.revisions, |db.pages|);
    SavedIsRevised(db, input, slug);
    NextRevision(PreparePage(db, input, slug).0, |db.pages|, input, 0);
  }

  lemma NextRevision(db: Db, p: PageId, input: PageInput, n: nat)
    requires p < |db.pages| && Numbered(History(db.revisions, p)) && |History(db.revisions, p)| == n
    ensures Revise(db, p, input.format, input.content, input.summary, input.authorType).0.revisions ==
            db.revisions + [Revision(p, n + 1, input.format, input.content, input.summary, input.authorType)]
  {
    ReviseShape(db, p, input.format, input.content, input.summary, input.authorType);
  }

  lemma SavedIsRevised(db: Db, input: PageInput, slug: string)
    requires input.slug == Some(slug) && Slugify(slug) == slug != ""
    ensures var (db0, p) := PreparePage(db, input, slug);
            Perform(db, SavePage(input)) == Revise(db0, p, input.format, input.content, input.summary, input.authorType).0
  {
  }

  lemma PageRevised(db: Db, tenant: string, slug: string, p: PageId, content: string, author: string)
    requires StoreInv(db) && slug != "" && IsSlug(slug) && FindPage(db.pages, tenant, slug) == Some(p)
    ensures var db1 := Perform(db, SaveRevision(tenant, slug, MARKDOWN, content, None, author));
            && StoreInv(db1) && FindPage(db1.pages, tenant, slug) == Some(p)
            && db1.revisions == db.revisions + [Revision(p, |History(db.revisions, p)| + 1, MARKDOWN, content, None, author)]
  {
    SlugifyNormalForm(slug);
    SaveRevisionKeeps(db, tenant, slug, MARKDOWN, content, None, author);
    assert PageOk(db, p);
    ReviseShape(db, p, MARKDOWN, content, None, author);
    FoundPageIs(Perform(db, SaveRevision(tenant, slug, MARKDOWN, content, None, author)), p);
  }

  lemma FirstPublished(db: Db, tenant: string, slug: string, p: PageId, prior: seq<Revision>, first: Revision, second: Revision)
    requires StoreInv(db) && slug != "" && IsSlug(slug) && FindPage(db.pages, tenant, slug) == Some(p)
    requires db.revisions == prior + [first] + [second] && first.pageId == second.pageId == p && first.no == 1 && second.no == 2
    requires forall r :: 0 <= r < |prior| ==> prior[r].pageId != p
    ensures var db1 := Perform(db, Publish(tenant, slug, Some(1)));
            && StoreInv(db1) && db1.revisions == db.revisions && |db1.pages| == |db.pages|
            && db1.pages[p] == db.pages[p].(current := Some(|prior|), status := "published")
  {
    SlugifyNormalForm(slug);
    PublishKeeps(db, tenant, slug, Some(1));
    var id := FindRevision(db.revisions, p, 1);
    assert db.revisions[|prior|] == first && db.revisions[|prior| + 1] == second;
    assert forall r :: 0 <= r < |prior| ==> db.revisions[r] == prior[r];
    assert id == Some(|prior|);
  }

  /** Published text and links can disagree: after any such run from any store, the page's
      current text is the first one, and the pages it is a backlink of are those that the later
      text links to. */
  lemma PublishedTextCanDisagree(db: Db, input: PageInput, slug: string, later: string, target: string)
    requires StoreInv(db) && input.slug == Some(slug) && slug != "" && IsSlug(slug) && FindPage(db.pages, input.tenantId, slug) == None
    ensures var db', p := PerformAll(db, PublishOlder(input, slug, later)), |db.pages|;
            && StoreInv(db') && p < |db'.pages| && db'.pages[p].current == Some(|db.revisions|) && |db.revisions| < |db'.revisions|
            && db'.revisions[|db.revisions|].content == input.content && db'.revisions[|db.revisions|].format == input.format
            && (p in Backlinks(db', input.tenantId, target) <==> target in LinkedSlugs(later))
  {
    var ops := PublishOlder(input, slug, later);
    PerformThree(db, ops[0], ops[1], ops[2]);
    SavedAndRevised(db, input, slug, later);
    OlderPublished(Perform(Perform(db, ops[0]), ops[1]), db.revisions, input, slug, |db.pages|, later, target);
  }

  lemma SavedAndRevised(db: Db, input: PageInput, slug: string, later: string)
    requires StoreInv(db) && input.slug == Some(slug) && slug != "" && IsSlug(slug) && FindPage(db.pages, input.tenantId, slug) == None
    ensures var p := |db.pages|;
            var db2 := Perform(Perform(db, SavePage(input)), SaveRevision(input.tenantId, slug, MARKDOWN, later, None, input.authorType));
            && StoreInv(db2) && FindPage(db2.pages, input.tenantId, slug) == Some(p)
            && db2.revisions == db.revisions + [FirstOf(input, p)] + [SecondOf(input, p, later)]
  {
    NewPageSaved(db, input, slug);
    RevisedOnce(Perform(db, SavePage(input)), db.revisions, input, slug, |db.pages|, later);
  }

  lemma RevisedOnce(db1: Db, prior: seq<Revision>, input: PageInput, slug: string, p: PageId, later: string)
    requires StoreInv(db1) && slug != "" && IsSlug(slug) && FindPage(db1.pages, input.tenantId, slug) == Some(p)
    requires db1.revisions == prior + [FirstOf(input, p)] && forall r :: 0 <= r < |prior| ==> prior[r].pageId != p
    ensures var db2 := Perform(db1, SaveRevision(input.tenantId, slug, MARKDOWN, later, None, input.authorType));
            && StoreInv(db2) && FindPage(db2.pages, input.tenantId, slug) == Some(p)
            && db2.revisions == db1.revisions + [SecondOf(input, p, later)]
  {
    NoHistoryOfNewPage(prior, p);
    HistorySnoc(prior, FirstOf(input, p), p);
    PageRevised(db1, input.tenantId, slug, p, later, input.authorType);
  }

  function FirstOf(input: PageInput, p: PageId): Revision {
    Revision(p, 1, input.format, input.content, input.summary, input.authorType)
  }

  function SecondOf(input: PageInput, p: PageId, later: string): Revision {
    Revision(p, 2, MARKDOWN, later, None, input.authorType)
  }

  lemma OlderPublished(db: Db, prior: seq<Revision>, input: PageInput, slug: string, p: PageId, later: string, target: string)
    requires StoreInv(db) && slug != "" && IsSlug(slug) && FindPage(db.pages, input.tenantId, slug) == Some(p)
    requires db.revisions == prior + [FirstOf(input, p)] + [SecondOf(input, p, later)]
    requires forall r :: 0 <= r < |prior| ==> prior[r].pageId != p
    ensures var db' := Perform(db, Publish(input.tenantId, slug, Some(1)));
            && StoreInv(db') && p < |db'.pages| && db'.pages[p].current == Some(|prior|) && |prior| < |db'.revisions|
            && db'.revisions[|prior|].content == input.content && db'.revisions[|prior|].format == input.format
            && (p in Backlinks(db', input.tenantId, target) <==> target in LinkedSlugs(later))
  {
    var db' := Perform(db, Publish(input.tenantId, slug, Some(1)));
    FirstPublished(db, input.tenantId, slug, p, prior, FirstOf(input, p), SecondOf(input, p, later));
    LatestIsSecond(db', prior + [FirstOf(input, p)], p, SecondOf(input, p, later));
    BacklinksAreExact(db', input.tenantId, target);
  }

  lemma LatestIsSecond(db: Db, before: seq<Revision>, p: PageId, second: Revision)
    requires db.revisions == before + [second] && second.pageId == p && second.format == MARKDOWN
    ensures LatestTargets(db, p) == LinkedSlugs(second.content)
  {
    HistorySnoc(before, second, p);
    var h := History(db.revisions, p);
    assert h[|h| - 1] == second;
  }

  /** The smallest such run: the published text is empty, and yet the page is a backlink. */
  lemma EmptyTextWithBacklink(input: PageInput, slug: string, target: string)
    requires input.slug == Some(slug) && slug != "" && IsSlug(slug) && input.content == ""
    requires target != "" && IsSlug(target)
    ensures var db' := PerformAll(EMPTY, PublishOlder(input, slug, "[[" + target + "]]"));
            && |db'.pages| > 0 && db'.pages[0].current == Some(0) && |db'.revisions| > 0 && db'.revisions[0].content == ""
            && target !in LinkedSlugs(db'.revisions[0].content) && 0 in Backlinks(db', input.tenantId, target)
  {
    EmptyStoreIsValid();
    PublishedTextCanDisagree(EMPTY, input, slug, "[[" + target + "]]", target);
    NoTargetsWithoutBracket("");
    forall c | c in target ensures IsLinkChar(c) {
      var i :| 0 <= i < |target| && target[i] == c;
      assert SlugCharAt(target, i);
    }
    SlugifyNormalForm(target);
    LinkTargets(target);
    DedupeOfDistinct([target]);
  }
}
