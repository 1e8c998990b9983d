/** In which order the scanner finds the related pages of a rendered page. The order in
    which they were chosen can be disturbed by links in the text above them. */
module LinkOrder {
  import opened Sequences
  import opened Text
  import opened Slugs
  import opened Wikilinks
  import opened Json
  import opened WikiStore
  import opened WikiInvariants
  import opened Evidence
  import opened Extraction
  import opened Rendering
  import opened CompiledStore
  import opened Compiler

  /** The links `before` leave the order of `chosen` alone: whenever a chosen slug is already
      linked, every slug chosen earlier is linked as well, and earlier. */
  ghost predicate OrderUndisturbed(before: seq<string>, chosen: seq<string>) {
    forall i, j :: 0 <= i < j < |chosen| && chosen[j] in before ==>
      chosen[i] in before && FirstIndex(before, chosen[i]) < FirstIndex(before, chosen[j])
  }

  /** Where a chosen slug is first linked in the whole text. */
  lemma FirstLinkOf(before: seq<string>, chosen: seq<string>, after: seq<string>, i: nat)
    requires Distinct(chosen) && i < |chosen|
    ensures chosen[i] in before + chosen + after
    ensures FirstIndex(before + chosen + after, chosen[i]) ==
            if chosen[i] in before then FirstIndex(before, chosen[i]) else |before| + i
  {
    var all := before + chosen + after;
    assert all[|before| + i] == chosen[i];
    assert all == before + (chosen + after);
    if chosen[i] in before {
      FirstIndexOfPrefix(before, chosen + after, chosen[i]);
    } else {
      assert forall k :: 0 <= k < i ==> chosen[k] != chosen[i];
      assert all[..|before| + i] == before + chosen[..i];
      FirstIndexIs(all, chosen[i], |before| + i);
    }
  }

  /** In a deduplicated sequence, elements stand in the order of their first occurrences. */
  lemma DedupeOrder<T(!new)>(xs: seq<T>, p: nat, q: nat)
    requires p < |Dedupe(xs)| && q < |Dedupe(xs)|
    ensures Dedupe(xs)[p] in xs && Dedupe(xs)[q] in xs
    ensures p < q <==> FirstIndex(xs, Dedupe(xs)[p]) < FirstIndex(xs, Dedupe(xs)[q])
  {
    DedupeMembers(xs);
    assert Dedupe(xs)[p] in Dedupe(xs) && Dedupe(xs)[q] in Dedupe(xs);
    if p < q {
      DedupeKeepsFirstOccurrences(xs, p, q);
    } else if q < p {
      DedupeKeepsFirstOccurrences(xs, q, p);
    }
  }

  lemma ChosenInOrderIff(before: seq<string>, chosen: seq<string>, after: seq<string>)
    requires Distinct(chosen)
    ensures InOrder(chosen, Dedupe(before + chosen + after)) <==> OrderUndisturbed(before, chosen)
  {
    if OrderUndisturbed(before, chosen) {
      UndisturbedIsInOrder(before, chosen, after);
    }
    if InOrder(chosen, Dedupe(before + chosen + after)) {
      InOrderIsUndisturbed(before, chosen, after);
    }
  }

  lemma UndisturbedIsInOrder(before: seq<string>, chosen: seq<string>, after: seq<string>)
    requires Distinct(chosen) && OrderUndisturbed(before, chosen)
    ensures InOrder(chosen, Dedupe(before + chosen + after))
  {
    var found := Dedupe(before + chosen + after);
    DedupeMembers(before + chosen + after);
    forall i, j, p, q | 0 <= i < j < |chosen| && 0 <= p < |found| && 0 <= q < |found| && found[p] == chosen[i] && found[q] == chosen[j]
      ensures p < q
    {
      FoundInOrder(before, chosen, after, i, j, p, q);
    }
  }

  lemma InOrderIsUndisturbed(before: seq<string>, chosen: seq<string>, after: seq<string>)
    requires Distinct(chosen) && InOrder(chosen, Dedupe(before + chosen + after))
    ensures OrderUndisturbed(before, chosen)
  {
    forall i, j | 0 <= i < j < |chosen| && chosen[j] in before
      ensures chosen[i] in before && FirstIndex(before, chosen[i]) < FirstIndex(before, chosen[j])
    {
      var p := PlaceOf(before, chosen, after, i);
      var q := PlaceOf(before, chosen, after, j);
      FoundInOrder(before, chosen, after, i, j, p, q);
    }
  }

  lemma PlaceOf(before: seq<string>, chosen: seq<string>, after: seq<string>, i: nat) returns (p: nat)
    requires i < |chosen|
    ensures p < |Dedupe(before + chosen + after)| && Dedupe(before + chosen + after)[p] == chosen[i]
  {
    var all := before + chosen + after;
    DedupeMembers(all);
    assert all[|before| + i] == chosen[i];
    assert chosen[i] in Dedupe(all);
    p :| 0 <= p < |Dedupe(all)| && Dedupe(all)[p] == chosen[i];
  }

  /** Two chosen slugs are found in their order unless the links before tell otherwise. */
  lemma FoundInOrder(before: seq<string>, chosen: seq<string>, after: seq<string>, i: nat, j: nat, p: nat, q: nat)
    requires Distinct(chosen) && i < j < |chosen|
    requires var found := Dedupe(before + chosen + after);
             p < |found| && q < |found| && found[p] == chosen[i] && found[q] == chosen[j]
    ensures p < q <==> (chosen[j] in before ==> chosen[i] in before && FirstIndex(before, chosen[i]) < FirstIndex(before, chosen[j]))
  {
    FirstLinkOf(before, chosen, after, i);
    FirstLinkOf(before, chosen, after, j);
    DedupeOrder(before + chosen + after, p, q);
  }

  /** The scanner finds the related pages of a rendered page in the order they were chosen
      if and only if the links of the text above do not disturb that order; in particular
      always when none of them is linked above. */
  lemma RelatedPagesInOrderIff(title: string, current: string, metadata: seq<Entry>, answer: string,
                               sources: seq<ClaimSourceInput>, claims: seq<string>, str: Printer)
    ensures InOrder(SlugSeq(RelatedPages(metadata, sources, current, str)),
                    LinkedSlugs(RenderPage(title, current, metadata, answer, sources, claims, str)))
            <==> OrderUndisturbed(LeadingLinks(title, metadata, answer, claims, str),
                                  SlugSeq(RelatedPages(metadata, sources, current, str)))
  {
    RenderedLinks(title, current, metadata, answer, sources, claims, str);
    RelatedPagesFacts(metadata, sources, current, str);
    ChosenInOrderIff(LeadingLinks(title, metadata, answer, claims, str),
                     SlugSeq(RelatedPages(metadata, sources, current, str)),
                     LinkSlugs(QuestionsSection(metadata, str)));
  }

  /** The page that a request's plan would save, read back. */
  ghost predicate SavedInOrder(db: Db, request: Request, answer: RagAnswer, str: Printer) {
    InOrder(SlugSeq(ChosenPages(request, answer, str)), LinkedSlugs(RequestPlan(db, request, answer, str).input.content))
  }

  function ChosenPages(request: Request, answer: RagAnswer, str: Printer): seq<string> {
    RelatedPages(answer.metadata, EvidenceOf(request, answer, str).sources, request.slug, str)
  }

  /** The links above the related pages in a request's page. */
  function LinksAbove(db: Db, request: Request, answer: RagAnswer, str: Printer): seq<string> {
    var plan := RequestPlan(db, request, answer, str);
    LeadingLinks(plan.input.title, answer.metadata, answer.answer, plan.claims, str)
  }

  /** For every request and every answer: the page that the compile saves links to the related
      pages in the order they were chosen if and only if the links above leave it alone. */
  lemma CompiledInOrderIff(db: Db, request: Request, answer: RagAnswer, str: Printer)
    ensures SavedInOrder(db, request, answer, str) <==>
            OrderUndisturbed(LinksAbove(db, request, answer, str), SlugSeq(ChosenPages(request, answer, str)))
  {
    var plan, evidence := RequestPlan(db, request, answer, str), EvidenceOf(request, answer, str);
    RelatedPagesInOrderIff(plan.input.title, request.slug, answer.metadata, answer.answer, evidence.sources, plan.claims, str);
  }

  // --------------------------------------------- answers that lose the order

  /** The metadata names related pages and nothing else. */
  ghost predicate OnlyRelated(metadata: seq<Entry>) {
    forall key :: key != "related_pages" ==> !HasKey(metadata, key) && Get(metadata, key) == JNull
  }

  lemma {:induction false} NoCollection(metadata: seq<Entry>, keys: seq<string>)
    requires forall i :: 0 <= i < |keys| ==> !HasKey(metadata, keys[i])
    ensures CollectionItems(metadata, keys) == []
  {
    if keys != [] {
      NoCollection(metadata, keys[1..]);
    }
  }

  lemma KeysAreOther()
    ensures forall i :: 0 <= i < |SOURCE_COLLECTION_KEYS| ==> SOURCE_COLLECTION_KEYS[i] != "related_pages"
    ensures forall i :: 0 <= i < |SOURCE_ID_KEYS| ==> SOURCE_ID_KEYS[i] != "related_pages"
    ensures forall i :: 0 <= i < |CHUNK_ID_KEYS| ==> CHUNK_ID_KEYS[i] != "related_pages"
    ensures forall i :: 0 <= i < |DOCUMENT_URI_KEYS| ==> DOCUMENT_URI_KEYS[i] != "related_pages"
  {
  }

  /** Then the query is the only source, and it adds no related page. */
  lemma OnlyQuerySource(metadata: seq<Entry>, query: string, str: Printer)
    requires OnlyRelated(metadata)
    ensures Sources(metadata, query, None, str) == [QuerySource(metadata, query, None)]
    ensures SourceTitles(Sources(metadata, query, None, str)) == []
  {
    KeysAreOther();
    NoCollection(metadata, SOURCE_COLLECTION_KEYS);
    assert !HasSourceIdentity(metadata);
    assert CandidateItems(metadata) == [];
    var q := QuerySource(metadata, query, None);
    assert AllSources(metadata, query, None, str) == [q];
    assert FirstByKey([q]) == [q];
    assert SourceTitles([q]) == SourceTitles([]) + [];
  }

  lemma NothingElseNamed(metadata: seq<Entry>, title: string, str: Printer)
    requires OnlyRelated(metadata)
    ensures MetadataClaims(metadata, str) == [] && KeyConcepts(metadata, title, str) == [title]
  {
    assert Get(metadata, "claims") == Get(metadata, "source_backed_claims") == Get(metadata, "statements") == JNull;
    assert Get(metadata, "key_concepts") == Get(metadata, "concepts") == Get(metadata, "entities") == JNull;
  }

  lemma TwoNames(a: string, b: string, current: string)
    requires Slugify(a) == a && Slugify(b) == b && a != "" && b != "" && a != b && a != current && b != current
    ensures FirstBySlug([a, b], current) == [a, b]
  {
    assert [a, b][..1] == [a] && [a][..0] == [];
    assert FirstBySlug([a], current) == [a];
    assert SlugSeq([a]) == [a];
  }

  lemma TwoTexts(a: string, b: string, str: Printer)
    ensures CoerceValues(JList([JText(a), JText(b)]), NAME_KEYS, str) == [a, b]
  {
    var items := [JText(a), JText(b)];
    assert items[1..] == [JText(b)] && items[1..][1..] == [];
    assert CoerceAll(items[1..], NAME_KEYS, str) == [b] + CoerceAll(items[1..][1..], NAME_KEYS, str);
    assert CoerceAll(items, NAME_KEYS, str) == [a] + CoerceAll(items[1..], NAME_KEYS, str);
  }

  lemma SlugsOfSlugs(a: string, b: string)
    requires Slugify(a) == a && Slugify(b) == b
    ensures SlugSeq([a, b]) == [a, b]
  {
  }

  /** Two slugs named as related pages are the pages chosen. */
  lemma TwoRelatedPages(metadata: seq<Entry>, sources: seq<ClaimSourceInput>, a: string, b: string, current: string, str: Printer)
    requires Get(metadata, "related_pages") == JList([JText(a), JText(b)]) && SourceTitles(sources) == []
    requires Slugify(a) == a && Slugify(b) == b && a != "" && b != "" && a != b && a != current && b != current
    ensures RelatedPages(metadata, sources, current, str) == [a, b]
    ensures SlugSeq(RelatedPages(metadata, sources, current, str)) == [a, b]
  {
    TwoTexts(a, b, str);
    ConcatUnit([a, b]);
    TwoNames(a, b, current);
    SlugsOfSlugs(a, b);
  }

  /** The text of a link to a slug, as an answer may consist of. */
  function LinkTo(slug: string): string { "[[" + slug + "]]" }

  lemma SlugIsPlain(slug: string)
    requires IsSlug(slug)
    ensures forall c :: c in slug ==> !IsSpace(c) && !IsLineBreak(c) && IsLinkChar(c)
  {
    forall c | c in slug ensures !IsSpace(c) && !IsLineBreak(c) && IsLinkChar(c) {
      var i :| 0 <= i < |slug| && slug[i] == c;
      assert SlugCharAt(slug, i);
    }
  }

  lemma LinkToIsPlain(slug: string)
    requires IsSlug(slug) && slug != ""
    ensures forall c :: c in LinkTo(slug) ==> !IsSpace(c) && !IsLineBreak(c)
  {
    SlugIsPlain(slug);
  }

  lemma LinkToIsNormal(slug: string)
    requires IsSlug(slug) && slug != ""
    ensures Strip(LinkTo(slug)) == LinkTo(slug) && Collapsed(LinkTo(slug)) && Collapse(LinkTo(slug)) == LinkTo(slug)
  {
    var s := LinkTo(slug);
    LinkToIsPlain(slug);
    assert forall i :: 0 <= i < |s| ==> s[i] in s;
    StripFixed(s);
    CollapseOfCollapsed(s);
  }

  lemma LinkToLinks(slug: string)
    requires IsSlug(slug) && slug != ""
    ensures LinkSlugs(LinkTo(slug)) == [slug] && LinkSlugs("- " + LinkTo(slug)) == [slug]
  {
    SlugIsPlain(slug);
    SlugifyNormalForm(slug);
    LinkTargets(slug);
    BulletTargets(slug);
    assert "- " + LinkTo(slug) == "- [[" + slug + "]]";
  }

  lemma {:induction false} OneLine(s: string)
    requires s != "" && forall c :: c in s ==> !IsLineBreak(c)
    ensures SplitLines(s) == [s]
  {
    assert s[0] in s;
    if |s| > 1 {
      OneLine(s[1..]);
      assert [s[1..]][1..] == [];
      assert [s[0]] + s[1..] == s;
    } else {
      assert s[1..] == "" && SplitLines(s[1..]) == [];
      assert [s[0]] == s;
    }
  }

  lemma NoNoiseInLink(slug: string)
    requires IsSlug(slug) && slug != ""
    ensures StripMarkdownNoise(LinkTo(slug)) == LinkTo(slug)
  {
    var s := LinkTo(slug);
    LinkToIsNormal(slug);
    assert s[0] == '[' && s[|s| - 1] == ']';
    assert TrimLeft(s, IsSpace) == s;
    assert DropHeading(s) == s && DropBullet(s) == s && DropNumber(s) == s;
  }

  /** An answer that is one link, with nothing else to claim, is the one claim and the summary. */
  lemma LinkIsClaimAndSummary(metadata: seq<Entry>, slug: string, str: Printer)
    requires IsSlug(slug) && slug != "" && |slug| <= 600 && MetadataClaims(metadata, str) == []
    ensures ClaimTexts(metadata, LinkTo(slug), str) == [LinkTo(slug)]
    ensures SummaryFromAnswer(LinkTo(slug)) == LinkTo(slug)
  {
    LinkToIsPlain(slug);
    LinkToIsNormal(slug);
    NoNoiseInLink(slug);
    OneLine(LinkTo(slug));
    OneClaim(metadata, LinkTo(slug), str);
    OneSummary(LinkTo(slug));
  }

  lemma OneClaim(metadata: seq<Entry>, s: string, str: Printer)
    requires MetadataClaims(metadata, str) == [] && SplitLines(s) == [s] && |s| <= 604
    requires s != "" && Strip(s) == s && StripMarkdownNoise(s) == s && Collapse(s) == s && Collapsed(s)
    ensures ClaimTexts(metadata, s, str) == [s]
  {
    OneCandidate(metadata, s, str);
    OneNormalText(s);
    DedupeOfDistinct([s]);
  }

  lemma OneSummary(s: string)
    requires s != "" && |s| <= 604 && StripMarkdownNoise(s) == s && Collapse(s) == s
    ensures SummaryFromAnswer(s) == s
  {
  }

  lemma CleanOrDropped(s: string)
    requires |s| <= 604 && StripMarkdownNoise(s) == s && Collapse(s) == s
    ensures CleanClaim(s) == "" || CleanClaim(s) == s
    ensures Truncate(StripMarkdownNoise(s), MAX_CLAIM_LENGTH) == s
  {
  }

  lemma SelectOne(s: string)
    ensures Select([s], NotEmpty) == if s == "" then [] else [s]
  {
    assert [s][..0] == [];
    ConcatUnit([s]);
  }

  lemma CandidatesOfOneLine(metadata: seq<Entry>, answer: string, str: Printer)
    requires MetadataClaims(metadata, str) == [] && SplitLines(answer) == [answer] && Strip(answer) != ""
    ensures ClaimCandidates(metadata, answer, str) ==
            [if CleanClaim(answer) == "" then Truncate(StripMarkdownNoise(answer), MAX_CLAIM_LENGTH) else CleanClaim(answer)]
  {
    SelectOne(CleanClaim(answer));
    assert CleanClaims([answer]) == [CleanClaim(answer)];
  }

  lemma OneCandidate(metadata: seq<Entry>, s: string, str: Printer)
    requires MetadataClaims(metadata, str) == [] && SplitLines(s) == [s] && |s| <= 604
    requires s != "" && Strip(s) == s && StripMarkdownNoise(s) == s && Collapse(s) == s
    ensures ClaimCandidates(metadata, s, str) == [s]
  {
    CandidatesOfOneLine(metadata, s, str);
    CleanOrDropped(s);
  }

  // ------------------------------------------- the sections above, one by one

  lemma OneNormalText(value: string)
    requires value != "" && Collapsed(value)
    ensures NormalTexts([value]) == [value]
  {
    CollapseOfStrip(value);
    CollapseOfCollapsed(value);
    NormalTextsAllKept([value], [value]);
  }

  lemma OneBullet(value: string)
    requires value != "" && Collapsed(value)
    ensures BulletLines([value]) == "- " + value
  {
    OneNormalText(value);
    KeptAsTheyAre([value], [value]);
    BulletLinesOfKept([value], [value]);
    assert Bullets([value]) == ["- " + value];
  }

  lemma NormalTextsOfOne(value: string)
    ensures NormalTexts([value]) == if Collapse(Strip(value)) == "" then [] else [Collapse(Strip(value))]
  {
    assert [value][..0] == [];
    ConcatUnit([Collapse(Strip(value))]);
  }

  lemma PlainStaysPlain(value: string)
    requires '[' !in value
    ensures '[' !in Collapse(Strip(value))
  {
    StripShape(value);
    CollapseIsCollapsed(Strip(value));
  }

  lemma BulletLinesOfNone(values: seq<string>)
    requires Dedupe(NormalTexts(values)) == []
    ensures BulletLines(values) == Join(Bullets([NO_ITEMS]), "\n")
  {
  }

  /** A value without brackets gives a bullet without links. */
  lemma PlainBullet(value: string)
    requires '[' !in value
    ensures LinkSlugs(BulletLines([value])) == []
  {
    var cleaned := Collapse(Strip(value));
    NormalTextsOfOne(value);
    PlainStaysPlain(value);
    if cleaned == "" {
      BulletLinesOfNone([value]);
      PlaceholderHasNoLinks();
    } else {
      PlainBulletLine([value], cleaned);
    }
  }

  lemma PlainBulletLine(values: seq<string>, cleaned: string)
    requires NormalTexts(values) == [cleaned] && '[' !in cleaned
    ensures LinkSlugs(BulletLines(values)) == []
  {
    var line := "- " + cleaned;
    KeptAsTheyAre(values, [cleaned]);
    BulletLinesOfKept(values, [cleaned]);
    assert Bullets([cleaned]) == [line];
    assert '[' !in line;
    NoTargetsWithoutBracket(line);
  }

  lemma FourParts(a: string, b: string, c: string, d: string)
    ensures LinkSlugs(Join([a, b, c, d], "\n\n")) == LinkSlugs(a) + LinkSlugs(b) + LinkSlugs(c) + LinkSlugs(d)
  {
    JoinTwoMore([a, b], c, d);
    assert [a, b] + [c, d] == [a, b, c, d];
    assert [a, b][1..] == [b] && Join([a, b], "\n\n") == a + "\n\n" + b;
    BlankLineSeparates(a + "\n\n" + b, c + "\n\n" + d);
    BlankLineSeparates(a, b);
    BlankLineSeparates(c, d);
    ConcatAssoc(LinkSlugs(a) + LinkSlugs(b), LinkSlugs(c), LinkSlugs(d));
  }

  /** A section under a heading without brackets links to what its body links to. */
  lemma SectionLinks(section: string, heading: string, body: string)
    requires section == heading + "\n\n" + body && '[' !in heading
    ensures LinkSlugs(section) == LinkSlugs(body)
  {
    NoTargetsWithoutBracket(heading);
    BlankLineSeparates(heading, body);
    ConcatUnit(LinkSlugs(body));
  }

  lemma SummarySection(summary: string)
    ensures LinkSlugs("## Summary\n\n" + summary) == LinkSlugs(summary)
  {
    assert "## Summary\n\n" + summary == "## Summary" + "\n\n" + summary;
    SectionLinks("## Summary\n\n" + summary, "## Summary", summary);
  }

  lemma ConceptsSection(lines: string)
    ensures LinkSlugs("## Key Concepts\n\n" + lines) == LinkSlugs(lines)
  {
    assert "## Key Concepts\n\n" + lines == "## Key Concepts" + "\n\n" + lines;
    SectionLinks("## Key Concepts\n\n" + lines, "## Key Concepts", lines);
  }

  lemma ClaimsSection(lines: string)
    ensures LinkSlugs("## Source-backed Claims\n\n" + lines) == LinkSlugs(lines)
  {
    assert "## Source-backed Claims\n\n" + lines == "## Source-backed Claims" + "\n\n" + lines;
    SectionLinks("## Source-backed Claims\n\n" + lines, "## Source-backed Claims", lines);
  }

  lemma LeadingLinksBySection(title: string, metadata: seq<Entry>, answer: string, claims: seq<string>, str: Printer)
    ensures LeadingLinks(title, metadata, answer, claims, str) ==
            LinkSlugs("# " + title) + LinkSlugs(SummaryFromAnswer(answer))
            + LinkSlugs(BulletLines(KeyConcepts(metadata, title, str))) + LinkSlugs(BulletLines(claims))
  {
    var s := LeadingSections(title, metadata, answer, claims, str);
    FourParts(s[0], s[1], s[2], s[3]);
    assert s == [s[0], s[1], s[2], s[3]];
    SummarySection(SummaryFromAnswer(answer));
    ConceptsSection(BulletLines(KeyConcepts(metadata, title, str)));
    ClaimsSection(BulletLines(claims));
  }

  /** With a plain title and an answer that is one link, that link is all there is above. */
  lemma OnlyTheAnswersLink(title: string, metadata: seq<Entry>, slug: string, str: Printer)
    requires '[' !in title && OnlyRelated(metadata) && IsSlug(slug) && slug != "" && |slug| <= 600
    ensures LeadingLinks(title, metadata, LinkTo(slug), ClaimTexts(metadata, LinkTo(slug), str), str) == [slug, slug]
  {
    NothingElseNamed(metadata, title, str);
    LinkIsClaimAndSummary(metadata, slug, str);
    SectionsOfLink(title, metadata, LinkTo(slug), slug, str);
  }

  lemma SectionsOfLink(title: string, metadata: seq<Entry>, s: string, slug: string, str: Printer)
    requires '[' !in title && KeyConcepts(metadata, title, str) == [title] && SummaryFromAnswer(s) == s
    requires IsSlug(slug) && slug != "" && s == LinkTo(slug)
    ensures LeadingLinks(title, metadata, s, [s], str) == [slug, slug]
  {
    LeadingLinksBySection(title, metadata, s, [s], str);
    TitleLinks(title);
    PlainBullet(title);
    LinkBullet(slug);
    Around([slug]);
  }

  lemma TitleLinks(title: string)
    requires '[' !in title
    ensures LinkSlugs("# " + title) == []
  {
    NoTargetsWithoutBracket("# " + title);
  }

  lemma LinkBullet(slug: string)
    requires IsSlug(slug) && slug != ""
    ensures LinkSlugs(LinkTo(slug)) == LinkSlugs(BulletLines([LinkTo(slug)])) == [slug]
  {
    LinkToLinks(slug);
    LinkToIsNormal(slug);
    OneBullet(LinkTo(slug));
  }

  lemma Around(xs: seq<string>)
    ensures [] + xs + [] + xs == xs + xs
  {
    ConcatUnit(xs);
  }

  lemma LostWhenLaterIsLinked(before: seq<string>, a: string, b: string)
    requires b in before && a !in before
    ensures !OrderUndisturbed(before, [a, b])
  {
    assert [a, b][0] == a && [a, b][1] == b;
  }

  /** The RAG runtime's answer is a link to `b`, and its metadata names the related pages `a`
      and then `b`. */
  function LosingAnswer(a: string, b: string): RagAnswer {
    RagAnswer(LinkTo(b), [Entry("related_pages", JList([JText(a), JText(b)]))])
  }

  lemma LosingMetadata(a: string, b: string)
    ensures OnlyRelated(LosingAnswer(a, b).metadata)
    ensures Get(LosingAnswer(a, b).metadata, "related_pages") == JList([JText(a), JText(b)])
  {
    var metadata := LosingAnswer(a, b).metadata;
    forall key | key != "related_pages" ensures !HasKey(metadata, key) && Get(metadata, key) == JNull {
      assert metadata[1..] == [];
    }
  }

  /** The order can be lost: for any two pages `a` and `b` other than the compiled one, a
      request without a source id that is answered so saves a page that links to `b` before `a`. */
  lemma OrderCanBeLost(db: Db, request: Request, a: string, b: string, str: Printer)
    requires request.evidenceSource == None
    requires '[' !in ResolvePageTitle(db, request.tenantId, request.slug, Some(request.title))
    requires IsSlug(a) && IsSlug(b) && a != "" && b != "" && a != b && a != request.slug && b != request.slug && |b| <= 600
    ensures SlugSeq(ChosenPages(request, LosingAnswer(a, b), str)) == [a, b]
    ensures LinksAbove(db, request, LosingAnswer(a, b), str) == [b, b]
    ensures !SavedInOrder(db, request, LosingAnswer(a, b), str)
  {
    LosingChoice(request, a, b, str);
    LosingLinks(db, request, a, b, str);
    LostWhenTwiceLinked(db, request, LosingAnswer(a, b), str, a, b);
  }

  lemma LostWhenDisturbed(db: Db, request: Request, answer: RagAnswer, str: Printer, above: seq<string>, a: string, b: string)
    requires LinksAbove(db, request, answer, str) == above && SlugSeq(ChosenPages(request, answer, str)) == [a, b]
    requires b in above && a !in above
    ensures !SavedInOrder(db, request, answer, str)
  {
    LostWhenLaterIsLinked(above, a, b);
    CompiledInOrderIff(db, request, answer, str);
  }

  lemma LostWhenTwiceLinked(db: Db, request: Request, answer: RagAnswer, str: Printer, a: string, b: string)
    requires a != b && LinksAbove(db, request, answer, str) == [b, b] && SlugSeq(ChosenPages(request, answer, str)) == [a, b]
    ensures !SavedInOrder(db, request, answer, str)
  {
    LostWhenDisturbed(db, request, answer, str, [b, b], a, b);
  }

  lemma LosingChoice(request: Request, a: string, b: string, str: Printer)
    requires request.evidenceSource == None
    requires IsSlug(a) && IsSlug(b) && a != "" && b != "" && a != b && a != request.slug && b != request.slug
    ensures SlugSeq(ChosenPages(request, LosingAnswer(a, b), str)) == [a, b]
  {
    var metadata := LosingAnswer(a, b).metadata;
    LosingMetadata(a, b);
    SlugifyNormalForm(a);
    SlugifyNormalForm(b);
    OnlyQuerySource(metadata, request.query, str);
    TwoRelatedPages(metadata, Sources(metadata, request.query, None, str), a, b, request.slug, str);
  }

  lemma LosingLinks(db: Db, request: Request, a: string, b: string, str: Printer)
    requires '[' !in ResolvePageTitle(db, request.tenantId, request.slug, Some(request.title))
    requires IsSlug(b) && b != "" && |b| <= 600
    ensures LinksAbove(db, request, LosingAnswer(a, b), str) == [b, b]
  {
    LosingMetadata(a, b);
    OnlyTheAnswersLink(ResolvePageTitle(db, request.tenantId, request.slug, Some(request.title)), LosingAnswer(a, b).metadata, b, str);
  }

  const NO_FAULTS := JobFaults(None, None, None)

  /** The same end to end: such a topic compile of a new page succeeds, and the text that it
      stores links to `b` before `a`. */
  lemma CompileCanLoseOrder(db: Db, tenant: string, topic: string, query: string, target: Option<string>, quoted: Quoting,
                            rag: RagRuntime, a: string, b: string, str: Printer)
    requires StoreInv(db) && '[' !in topic
    requires IsSlug(a) && IsSlug(b) && a != "" && b != "" && a != b && |b| <= 600
    requires TopicRequest(tenant, topic, query, None, target, quoted).Ok?
    requires var request := TopicRequest(tenant, topic, query, None, target, quoted).value;
             && FindPage(db.pages, tenant, request.slug) == None && a != request.slug && b != request.slug
             && rag(request.query) == Ok(LosingAnswer(a, b))
    ensures var request := TopicRequest(tenant, topic, query, None, target, quoted).value;
            var (db', r) := Compiled(db, request, RequestedPlan(db, request, rag, str), NO_FAULTS);
            && r.Ok? && r.value.page.revision < |db'.revisions|
            && SlugSeq(ChosenPages(request, LosingAnswer(a, b), str)) == [a, b]
            && !InOrder([a, b], LinkedSlugs(db'.revisions[r.value.page.revision].content))
  {
    var request := TopicRequest(tenant, topic, query, None, target, quoted).value;
    TopicRequestIsRequest(tenant, topic, query, None, target, quoted);
    StripShape(topic);
    assert ResolvePageTitle(db, request.tenantId, request.slug, Some(request.title)) == request.title;
    OrderCanBeLost(db, request, a, b, str);
    RequestedPlanIsPlan(db, request, rag, str);
    FaultlessCompile(db, request, RequestPlan(db, request, LosingAnswer(a, b), str));
  }

  /** A compile without exceptions stores the plan's text as the returned revision. */
  lemma FaultlessCompile(db: Db, request: Request, plan: Plan)
    requires StoreInv(db) && IsPlan(plan)
    ensures var (db', r) := Compiled(db, request, Ok(plan), NO_FAULTS);
            && r.Ok? && r.value.page.revision < |db'.revisions|
            && db'.revisions[r.value.page.revision].content == plan.input.content
  {
    CompileOutcome(db, request, Ok(plan), NO_FAULTS);
    SuccessConserves(db, request, plan, NO_FAULTS);
  }
}
