/** Rendering a compiled page, and reading its links back: what the printer writes
    under "Related Pages" is what the wikilink scanner extracts. */
module Rendering {
  import opened Sequences
  import opened Text
  import opened Slugs
  import opened Wikilinks
  import opened Json
  import opened WikiStore
  import opened Evidence
  import opened Extraction
  import opened ExtractedTexts

  const NO_ITEMS := "No items extracted from structured evidence."
  const RELATED_HEADING := "## Related Pages"

  function Bullets(values: seq<string>): (r: seq<string>)
    ensures |r| == |values| && forall i :: 0 <= i < |r| ==> r[i] == "- " + values[i]
  {
    seq(|values|, i requires 0 <= i < |values| => "- " + values[i])
  }

  function BulletLines(values: seq<string>): string {
    var cleaned := DedupeNonEmpty(values, None);
    Join(Bullets(if cleaned == [] then [NO_ITEMS] else cleaned), "\n")
  }

  /** The text between the brackets of a printed link. */
  function LinkText(value: string): string {
    Strip(Replace(Remove(Remove(value, '['), ']'), '\n', ' '))
  }

  function Wikilink(value: string): string {
    if LinkText(value) == "" then "" else "[[" + LinkText(value) + "]]"
  }

  function WikilinksOf(pages: seq<string>): (r: seq<string>)
    ensures |r| == |pages| && forall i :: 0 <= i < |r| ==> r[i] == Wikilink(pages[i])
  {
    seq(|pages|, i requires 0 <= i < |pages| => Wikilink(pages[i]))
  }

  function RelatedSection(pages: seq<string>): string {
    RELATED_HEADING + "\n\n" + BulletLines(WikilinksOf(pages))
  }

  /** What precedes the related pages: title, summary, key concepts and claims. */
  function LeadingSections(title: string, metadata: seq<Entry>, answer: string, claims: seq<string>, str: Printer): seq<string> {
    [ "# " + title,
      "## Summary\n\n" + SummaryFromAnswer(answer),
      "## Key Concepts\n\n" + BulletLines(KeyConcepts(metadata, title, str)),
      "## Source-backed Claims\n\n" + BulletLines(claims) ]
  }

  function QuestionsSection(metadata: seq<Entry>, str: Printer): string {
    "## Open Questions\n\n" + BulletLines(OpenQuestions(metadata, str))
  }

  function RenderPage(title: string, current: string, metadata: seq<Entry>, answer: string,
                      sources: seq<ClaimSourceInput>, claims: seq<string>, str: Printer): string
  {
    Join(LeadingSections(title, metadata, answer, claims, str)
         + [RelatedSection(RelatedPages(metadata, sources, current, str)), QuestionsSection(metadata, str)], "\n\n")
  }

  // ---------------------------------------------------- links, line by line

  lemma BlankLineSeparates(a: string, b: string)
    ensures LinkSlugs(a + "\n\n" + b) == LinkSlugs(a) + LinkSlugs(b)
  {
    assert a + "\n\n" + b == a + "\n" + ("" + "\n" + b);
    LinkSlugsByLine(a, "" + "\n" + b);
    LinkSlugsByLine("", b);
    NoTargetsWithoutBracket("");
    assert LinkSlugs("") == [];
  }

  /** The link slugs of texts joined by a newline, one after the other. */
  lemma {:induction false} LinesInOrder(lines: seq<string>, slugs: seq<string>)
    requires |lines| == |slugs| && forall i :: 0 <= i < |lines| ==> LinkSlugs(lines[i]) == [slugs[i]]
    ensures LinkSlugs(Join(lines, "\n")) == slugs
  {
    if |lines| == 0 {
      NoTargetsWithoutBracket("");
    } else if |lines| == 1 {
      assert slugs == [slugs[0]];
    } else {
      LinesInOrder(lines[1..], slugs[1..]);
      LinkSlugsByLine(lines[0], Join(lines[1..], "\n"));
      assert slugs == [slugs[0]] + slugs[1..];
    }
  }

  /** A page's links are those before the related pages, the related section's, and those after. */
  lemma PageLinksBySection(lead: seq<string>, related: string, after: string)
    requires lead != []
    ensures LinkSlugs(Join(lead + [related, after], "\n\n")) ==
            LinkSlugs(Join(lead, "\n\n")) + LinkSlugs(related) + LinkSlugs(after)
  {
    var front, back := Join(lead, "\n\n"), related + "\n\n" + after;
    JoinTwoMore(lead, related, after);
    assert Join(lead + [related, after], "\n\n") == front + "\n\n" + back;
    TwoParts(front, related, after);
  }

  lemma TwoParts(front: string, related: string, after: string)
    ensures LinkSlugs(front + "\n\n" + (related + "\n\n" + after)) == LinkSlugs(front) + LinkSlugs(related) + LinkSlugs(after)
  {
    BlankLineSeparates(front, related + "\n\n" + after);
    BlankLineSeparates(related, after);
  }

  lemma {:induction false} JoinTwoMore(lead: seq<string>, a: string, b: string)
    requires lead != []
    ensures Join(lead + [a, b], "\n\n") == Join(lead, "\n\n") + "\n\n" + (a + "\n\n" + b)
  {
    if |lead| == 1 {
      assert (lead + [a, b])[1..] == [a, b] && [a, b][1..] == [b];
      assert Join([a, b], "\n\n") == a + "\n\n" + b;
    } else {
      assert (lead + [a, b])[1..] == lead[1..] + [a, b];
      JoinTwoMore(lead[1..], a, b);
      var rest, back := Join(lead[1..], "\n\n"), a + "\n\n" + b;
      assert lead[0] + "\n\n" + (rest + "\n\n" + back) == (lead[0] + "\n\n" + rest) + "\n\n" + back;
    }
  }

  // ------------------------------------------------------ one printed link

  lemma {:induction false} RemovedIsGone(s: string, c: char)
    ensures c !in Remove(s, c)
    ensures forall d :: d in Remove(s, c) ==> d in s
  {
    if s != "" {
      RemovedIsGone(s[1..], c);
    }
  }

  lemma {:induction false} ReplacedIsGone(s: string, c: char, d: char)
    requires c != d
    ensures c !in Replace(s, c, d)
    ensures forall e :: e in Replace(s, c, d) ==> e == d || e in s
  {
    if s != "" {
      ReplacedIsGone(s[1..], c, d);
    }
  }

  lemma LinkTextIsPlain(value: string)
    ensures forall c :: c in LinkText(value) ==> IsLinkChar(c)
    ensures forall c :: c in Collapse(LinkText(value)) ==> IsLinkChar(c)
    ensures LinkText(value) == "" || (!IsSpace(LinkText(value)[0]) && !IsSpace(LinkText(value)[|LinkText(value)| - 1]))
  {
    var bare := Remove(value, '[');
    RemovedIsGone(value, '[');
    RemovedIsGone(bare, ']');
    ReplacedIsGone(Remove(bare, ']'), '\n', ' ');
    StripShape(Replace(Remove(bare, ']'), '\n', ' '));
    CollapseIsCollapsed(LinkText(value));
  }

  lemma {:induction false} CollapseNotEmpty(s: string)
    requires s != "" && !IsSpace(s[|s| - 1])
    ensures Collapse(s) != ""
  {
    CollapseStep(s);
    if |s| > 1 {
      CollapseNotEmpty(s[1..]);
    }
  }

  lemma {:induction false} CollapseSnoc(s: string, c: char)
    requires !IsSpace(c)
    requires s != "" && !IsSpace(s[|s| - 1])
    ensures Collapse(s + [c]) == Collapse(s) + [c]
  {
    assert (s + [c])[1..] == s[1..] + [c];
    CollapseStep(s);
    CollapseStep(s + [c]);
    if |s| == 1 {
      CollapseStep([c]);
      assert s[1..] + [c] == [c];
      assert [c][1..] == "";
      assert [s[0]] + [c] == s + [c];
    } else {
      var rest := Collapse(s[1..]);
      CollapseNotEmpty(s[1..]);
      CollapseSnoc(s[1..], c);
      assert [s[0]] + (" " + (rest + [c])) == ([s[0]] + (" " + rest)) + [c];
      assert [s[0]] + (rest + [c]) == ([s[0]] + rest) + [c];
    }
  }

  lemma CollapseCons(c: char, s: string)
    requires !IsSpace(c) && s != "" && !IsSpace(s[0])
    ensures Collapse([c] + s) == [c] + Collapse(s)
  {
    assert ([c] + s)[1..] == s;
    CollapseStep([c] + s);
  }

  /** Normalising the whitespace of a printed link normalises only its inside. */
  lemma CollapseInsideLink(t: string)
    requires t != "" && !IsSpace(t[0]) && !IsSpace(t[|t| - 1])
    ensures Collapse(Strip("[[" + t + "]]")) == "[[" + Collapse(t) + "]]"
  {
    var opened1, opened2 := ['['] + t, ['['] + (['['] + t);
    CollapseCons('[', t);
    CollapseCons('[', opened1);
    CollapseSnoc(opened2, ']');
    CollapseSnoc(opened2 + [']'], ']');
    assert "[[" + t + "]]" == opened2 + [']'] + [']'];
    assert "[[" + Collapse(t) + "]]" == (['['] + (['['] + Collapse(t))) + [']'] + [']'];
    StripFixed("[[" + t + "]]");
  }

  /** A name with a slug is printed as a link whose bullet is read back as that slug. */
  lemma PrintedLinkReadsBack(value: string)
    requires Slugify(value) != ""
    ensures LinkText(value) != ""
    ensures Collapse(Strip(Wikilink(value))) == "[[" + Collapse(LinkText(value)) + "]]"
    ensures Slugify(Collapse(LinkText(value))) == Slugify(value)
    ensures LinkSlugs("- " + Collapse(Strip(Wikilink(value)))) == [Slugify(value)]
  {
    var t := LinkText(value);
    SlugSurvivesPrinting(value);
    if Collapse(t) == "" {
      SlugifyIsScan("");
    }
    assert Collapse("") == "";
    LinkTextIsPlain(value);
    CollapseInsideLink(t);
    BulletTargets(Collapse(t));
    assert "- " + ("[[" + Collapse(t) + "]]") == "- [[" + Collapse(t) + "]]";
  }

  // ------------------------------------------------------ the related section

  /** The links of the chosen pages as they are printed. */
  function PrintedLinks(pages: seq<string>): (r: seq<string>)
    ensures |r| == |pages| && forall i :: 0 <= i < |r| ==> r[i] == Collapse(Strip(Wikilink(pages[i])))
  {
    seq(|pages|, i requires 0 <= i < |pages| => Collapse(Strip(Wikilink(pages[i]))))
  }

  lemma PrintedNotEmpty(value: string)
    requires Slugify(value) != ""
    ensures Collapse(Strip(Wikilink(value))) != ""
  {
    PrintedLinkReadsBack(value);
    assert ("[[" + Collapse(LinkText(value)) + "]]")[0] == '[';
  }

  lemma {:induction false} NormalTextsAllKept(values: seq<string>, cleaned: seq<string>)
    requires |values| == |cleaned|
    requires forall i :: 0 <= i < |values| ==> cleaned[i] == Collapse(Strip(values[i])) && cleaned[i] != ""
    ensures NormalTexts(values) == cleaned
  {
    if values != [] {
      NormalTextsAllKept(values[..|values| - 1], cleaned[..|values| - 1]);
      assert cleaned == cleaned[..|values| - 1] + [cleaned[|values| - 1]];
    }
  }

  lemma NormalTextsOfLinks(pages: seq<string>)
    requires forall i :: 0 <= i < |pages| ==> Slugify(pages[i]) != ""
    ensures NormalTexts(WikilinksOf(pages)) == PrintedLinks(pages)
  {
    forall i | 0 <= i < |pages| ensures PrintedLinks(pages)[i] != "" {
      PrintedNotEmpty(pages[i]);
    }
    NormalTextsAllKept(WikilinksOf(pages), PrintedLinks(pages));
  }

  lemma PrintedLinksDistinct(pages: seq<string>)
    requires Distinct(SlugSeq(pages)) && forall i :: 0 <= i < |pages| ==> Slugify(pages[i]) != ""
    ensures Distinct(PrintedLinks(pages))
  {
    var printed := PrintedLinks(pages);
    forall i, j | 0 <= i < j < |pages| ensures printed[i] != printed[j] {
      PrintedLinkReadsBack(pages[i]);
      PrintedLinkReadsBack(pages[j]);
      assert SlugSeq(pages)[i] != SlugSeq(pages)[j];
      assert LinkSlugs("- " + printed[i])[0] != LinkSlugs("- " + printed[j])[0];
    }
  }

  lemma PrintedLinesReadBack(pages: seq<string>)
    requires forall i :: 0 <= i < |pages| ==> Slugify(pages[i]) != ""
    ensures LinkSlugs(Join(Bullets(PrintedLinks(pages)), "\n")) == SlugSeq(pages)
  {
    var lines := Bullets(PrintedLinks(pages));
    forall i | 0 <= i < |lines| ensures LinkSlugs(lines[i]) == [SlugSeq(pages)[i]] {
      PrintedLinkReadsBack(pages[i]);
    }
    LinesInOrder(lines, SlugSeq(pages));
  }

  lemma BulletLinesOfLinks(pages: seq<string>)
    requires Distinct(SlugSeq(pages)) && forall i :: 0 <= i < |pages| ==> Slugify(pages[i]) != ""
    ensures BulletLines(WikilinksOf(pages)) == Join(Bullets(if pages == [] then [NO_ITEMS] else PrintedLinks(pages)), "\n")
  {
    var printed := PrintedLinks(pages);
    NormalTextsOfLinks(pages);
    PrintedLinksDistinct(pages);
    KeptAsTheyAre(WikilinksOf(pages), printed);
    BulletLinesOfKept(WikilinksOf(pages), printed);
    assert printed == [] <==> pages == [];
  }

  lemma KeptAsTheyAre(values: seq<string>, cleaned: seq<string>)
    requires NormalTexts(values) == cleaned && Distinct(cleaned)
    ensures DedupeNonEmpty(values, None) == cleaned
  {
    DedupeOfDistinct(cleaned);
  }

  lemma BulletLinesOfKept(values: seq<string>, cleaned: seq<string>)
    requires DedupeNonEmpty(values, None) == cleaned
    ensures BulletLines(values) == Join(Bullets(if cleaned == [] then [NO_ITEMS] else cleaned), "\n")
  {
  }

  /** Printing then reading the related section gives the slugs of the chosen pages, in order. */
  lemma RelatedSectionReadsBack(pages: seq<string>)
    requires Distinct(SlugSeq(pages)) && forall i :: 0 <= i < |pages| ==> Slugify(pages[i]) != ""
    ensures LinkSlugs(RelatedSection(pages)) == SlugSeq(pages)
  {
    var lines := BulletLines(WikilinksOf(pages));
    HeadingHasNoLinks();
    BlankLineSeparates(RELATED_HEADING, lines);
    assert LinkSlugs(RelatedSection(pages)) == LinkSlugs(lines);
    BulletLinesOfLinks(pages);
    if pages == [] {
      PlaceholderHasNoLinks();
    } else {
      PrintedLinesReadBack(pages);
    }
  }

  lemma HeadingHasNoLinks()
    ensures LinkSlugs(RELATED_HEADING) == []
  {
    NoTargetsWithoutBracket(RELATED_HEADING);
  }

  lemma PlaceholderHasNoLinks()
    ensures LinkSlugs(Join(Bullets([NO_ITEMS]), "\n")) == []
  {
    var line := "- " + NO_ITEMS;
    assert Bullets([NO_ITEMS]) == [line];
    assert '[' !in NO_ITEMS && '[' !in "- ";
    NoTargetsWithoutBracket(line);
  }

  // ------------------------------------------------------------- the page

  /** The links of the text that precedes the related pages. */
  function LeadingLinks(title: string, metadata: seq<Entry>, answer: string, claims: seq<string>, str: Printer): seq<string> {
    LinkSlugs(Join(LeadingSections(title, metadata, answer, claims, str), "\n\n"))
  }

  /** The links of a rendered page, for any title, evidence and claims: those that the title,
      summary, concepts and claims happen to contain, then exactly the slugs of the chosen
      related pages in order, then those of the open questions. */
  lemma RenderedLinks(title: string, current: string, metadata: seq<Entry>, answer: string,
                      sources: seq<ClaimSourceInput>, claims: seq<string>, str: Printer)
    ensures LinkSlugs(RenderPage(title, current, metadata, answer, sources, claims, str)) ==
            LeadingLinks(title, metadata, answer, claims, str)
            + SlugSeq(RelatedPages(metadata, sources, current, str))
            + LinkSlugs(QuestionsSection(metadata, str))
  {
    var pages := RelatedPages(metadata, sources, current, str);
    RelatedPagesFacts(metadata, sources, current, str);
    RelatedSectionReadsBack(pages);
    PageLinksBySection(LeadingSections(title, metadata, answer, claims, str), RelatedSection(pages), QuestionsSection(metadata, str));
  }

  /** Printing and parsing agree: `extract_wikilinks` of a rendered page contains the slug of
      every related page that was chosen. */
  lemma EveryRelatedPageIsExtracted(title: string, current: string, metadata: seq<Entry>, answer: string,
                                    sources: seq<ClaimSourceInput>, claims: seq<string>, str: Printer)
    ensures forall page :: page in RelatedPages(metadata, sources, current, str) ==>
              Slugify(page) in LinkedSlugs(RenderPage(title, current, metadata, answer, sources, claims, str))
  {
    RenderedLinks(title, current, metadata, answer, sources, claims, str);
    DedupeMembers(LinkSlugs(RenderPage(title, current, metadata, answer, sources, claims, str)));
    var pages := RelatedPages(metadata, sources, current, str);
    forall page | page in pages ensures Slugify(page) in SlugSeq(pages) {
      var i :| 0 <= i < |pages| && pages[i] == page;
      assert SlugSeq(pages)[i] == Slugify(page);
    }
  }

  // ------------------------------------------------------- the printed lists

  /** The sections of a page, in order, separated by blank lines. */
  lemma PageInSections(title: string, current: string, metadata: seq<Entry>, answer: string,
                       sources: seq<ClaimSourceInput>, claims: seq<string>, str: Printer) returns (sections: seq<string>)
    ensures sections == ["# " + title,
                         "## Summary\n\n" + SummaryFromAnswer(answer),
                         "## Key Concepts\n\n" + BulletLines(KeyConcepts(metadata, title, str)),
                         "## Source-backed Claims\n\n" + BulletLines(claims),
                         "## Related Pages" + "\n\n" + BulletLines(WikilinksOf(RelatedPages(metadata, sources, current, str))),
                         "## Open Questions\n\n" + BulletLines(OpenQuestions(metadata, str))]
    ensures RenderPage(title, current, metadata, answer, sources, claims, str) == Join(sections, "\n\n")
  {
    sections := LeadingSections(title, metadata, answer, claims, str)
                + [RelatedSection(RelatedPages(metadata, sources, current, str)), QuestionsSection(metadata, str)];
  }

  lemma {:induction false} JoinedLinesSplit(lines: seq<string>)
    requires forall i :: 0 <= i < |lines| ==> lines[i] != "" && forall c :: c in lines[i] ==> !EndsLine(c)
    ensures SplitLines(Join(lines, "\n")) == lines
  {
    if |lines| == 1 {
      OneLine(lines[0]);
    } else if |lines| > 1 {
      JoinedLinesSplit(lines[1..]);
      FirstLineEnds(lines[0], "\n", Join(lines[1..], "\n"));
      assert lines == [lines[0]] + lines[1..];
    }
  }

  lemma NormalTextIsALine(value: string)
    requires Collapsed(value)
    ensures var line := "- " + value; line != "" && forall c :: c in line ==> !EndsLine(c)
  {
    forall c | c in "- " + value ensures !EndsLine(c) {
      var i :| 0 <= i < |"- " + value| && ("- " + value)[i] == c;
      if i >= 2 {
        assert c == value[i - 2];
      }
    }
  }

  lemma {:induction false} NormalTextsOfNormal(values: seq<string>)
    requires forall i :: 0 <= i < |values| ==> values[i] != "" && Collapsed(values[i])
    ensures NormalTexts(values) == values
  {
    forall i | 0 <= i < |values| ensures Collapse(Strip(values[i])) == values[i] {
      CollapseOfStrip(values[i]);
      CollapseOfCollapsed(values[i]);
    }
    NormalTextsAllKept(values, values);
  }

  /** A printed list of distinct normalised texts is read back line by line: one bullet for each, in
      order, and nothing else. */
  lemma BulletsReadBack(values: seq<string>)
    requires values != [] && Distinct(values)
    requires forall i :: 0 <= i < |values| ==> values[i] != "" && Collapsed(values[i])
    ensures SplitLines(BulletLines(values)) == Bullets(values)
  {
    BulletLinesOfNormal(values);
    forall i | 0 <= i < |values| ensures Bullets(values)[i] != "" && forall c :: c in Bullets(values)[i] ==> !EndsLine(c) {
      NormalTextIsALine(values[i]);
    }
    JoinedLinesSplit(Bullets(values));
  }

  lemma BulletLinesOfNormal(values: seq<string>)
    requires values != [] && Distinct(values)
    requires forall i :: 0 <= i < |values| ==> values[i] != "" && Collapsed(values[i])
    ensures BulletLines(values) == Join(Bullets(values), "\n")
  {
    NormalTextsOfNormal(values);
    KeptAsTheyAre(values, values);
    BulletLinesOfKept(values, values);
  }

  /** The claims of a page are printed one to a line, exactly as they are saved. */
  lemma PrintedClaimsReadBack(metadata: seq<Entry>, answer: string, str: Printer)
    ensures var claims := ClaimTexts(metadata, answer, str);
            SplitLines(BulletLines(claims)) == if claims == [] then ["- " + "No items extracted from structured evidence."] else Bullets(claims)
  {
    var claims := ClaimTexts(metadata, answer, str);
    ClaimTextsFacts(metadata, answer, str);
    if claims == [] {
      NoClaimsPrinted();
    } else {
      forall i | 0 <= i < |claims| ensures claims[i] != "" && Collapsed(claims[i]) {
        assert claims[i] in claims;
      }
      BulletsReadBack(claims);
    }
  }

  lemma NoClaimsPrinted()
    ensures SplitLines(BulletLines([])) == ["- " + "No items extracted from structured evidence."]
  {
    PlaceholderIsALine("- " + NO_ITEMS);
    OneLine("- " + NO_ITEMS);
    assert Bullets([NO_ITEMS]) == ["- " + NO_ITEMS];
  }

  lemma PlaceholderIsALine(line: string)
    requires line == "- " + NO_ITEMS
    ensures line != "" && forall c :: c in line ==> !EndsLine(c)
  {
    assert forall i :: 0 <= i < |NO_ITEMS| ==> ' ' <= NO_ITEMS[i];
    forall c | c in line ensures !EndsLine(c) {
      var i :| 0 <= i < |line| && line[i] == c;
      assert i >= 2 ==> c == NO_ITEMS[i - 2];
    }
  }
}
