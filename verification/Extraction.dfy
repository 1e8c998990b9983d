/** The texts that the compiler extracts from an answer and its metadata: claims,
    key concepts, related pages and open questions. */
module Extraction {
  import opened Sequences
  import opened Text
  import opened Slugs
  import opened Json
  import opened WikiStore
  import opened Evidence

  const MAX_CLAIMS_PER_PAGE := 8
  const MAX_CLAIM_LENGTH := 700
  const MIN_CLAIM_LENGTH := 12
  const MAX_SUMMARY_LENGTH := 1200
  const MAX_RELATED_PAGES := 8
  const MAX_KEY_CONCEPTS := 10

  const NO_SUMMARY := "No summary was returned by the RAG evidence query."

  const CLAIM_KEYS := ["claim_text", "claim", "text", "statement"]
  const NAME_KEYS := ["name", "title", "label", "entity_name", "concept"]

  // ------------------------------------------------------- texts out of JSON

  /** The texts of a value: itself, the first listed text of an object, or those of the
      elements of a list. Both coercions of the compiler are this, with their own keys. */
  function CoerceValues(v: Json, keys: seq<string>, str: Printer): seq<string>
    decreases v, 1
  {
    match v
    case JText(s) => [s]
    case JObject(entries) =>
      var text := FirstText(entries, keys, str);
      if text.Some? then [text.value] else []
    case JList(items) => CoerceAll(items, keys, str)
    case _ => []
  }

  function CoerceAll(items: seq<Json>, keys: seq<string>, str: Printer): seq<string>
    decreases items, 0
  {
    if items == [] then [] else CoerceValues(items[0], keys, str) + CoerceAll(items[1..], keys, str)
  }

  function MetadataClaims(metadata: seq<Entry>, str: Printer): seq<string> {
    CoerceValues(Get(metadata, "claims"), CLAIM_KEYS, str)
    + CoerceValues(Get(metadata, "source_backed_claims"), CLAIM_KEYS, str)
    + CoerceValues(Get(metadata, "statements"), CLAIM_KEYS, str)
  }

  // -------------------------------------------------------------- truncation

  /** `_truncate`: cut one character early, then three dots. */
  function Truncate(value: string, max: nat): string
    requires max >= 1
  {
    var normalized := Collapse(value);
    if |normalized| <= max then normalized
    else TrimRight(normalized[..max - 1], IsSpace) + "..."
  }

  /** A truncated text can exceed its limit, by at most two characters, and it does so
      exactly when something was cut off. */
  lemma TruncateExceedsByTwo(value: string, max: nat)
    requires max >= 2
    ensures |Truncate(value, max)| <= max + 2
    ensures |Truncate(value, max)| > max <==> |Collapse(value)| > max
  {
    var n := Collapse(value);
    if |n| > max {
      CollapseIsCollapsed(value);
      var cut := n[..max - 1];
      if IsSpace(cut[max - 2]) {
        assert IsSpace(n[max - 2]) && !IsSpace(n[max - 3]);
        assert cut[..max - 2][max - 3] == n[max - 3];
        assert TrimRight(cut, IsSpace) == cut[..max - 2];
      } else {
        assert TrimRight(cut, IsSpace) == cut;
      }
    }
  }

  // ------------------------------------------------------------------ claims

  function Prefix(s: string, p: char -> bool): (n: nat)
    ensures n <= |s| && forall i :: 0 <= i < n ==> p(s[i])
    ensures n < |s| ==> !p(s[n])
  {
    if s == "" || !p(s[0]) then 0 else 1 + Prefix(s[1..], p)
  }

  /** Drops a heading marker: one to six `#` and the whitespace after them. */
  function DropHeading(s: string): string {
    var n := Prefix(s, c => c == '#');
    if 1 <= n <= 6 && n < |s| && IsSpace(s[n]) then TrimLeft(s[n..], IsSpace) else s
  }

  /** Drops a bullet marker and the whitespace around it. */
  function DropBullet(s: string): string {
    var t := TrimLeft(s, IsSpace);
    if |t| >= 2 && (t[0] == '-' || t[0] == '*' || t[0] == '+') && IsSpace(t[1]) then TrimLeft(t[1..], IsSpace) else s
  }

  /** Drops a list number: digits, `.` or `)`, and the whitespace around them. */
  function DropNumber(s: string): string {
    var t := TrimLeft(s, IsSpace);
    var n := Prefix(t, IsDigit);
    if n >= 1 && n + 1 < |t| && (t[n] == '.' || t[n] == ')') && IsSpace(t[n + 1]) then TrimLeft(t[n + 1..], IsSpace) else s
  }

  function StripMarkdownNoise(value: string): string {
    var stripped := Strip(DropNumber(DropBullet(DropHeading(Strip(value)))));
    if stripped != "" && stripped[|stripped| - 1] == ':' && |Words(stripped)| <= 5 then "" else Collapse(stripped)
  }

  function CleanClaim(value: string): string {
    var cleaned := StripMarkdownNoise(value);
    if |cleaned| < MIN_CLAIM_LENGTH then "" else Truncate(cleaned, MAX_CLAIM_LENGTH)
  }

  /** The line boundaries of `str.splitlines` in ASCII; `\r\n` counts once. */
  predicate IsLineBreak(c: char) { '\n' <= c <= '\r' || '\U{1C}' <= c <= '\U{1E}' }

  function SplitLines(s: string): seq<string> {
    if s == "" then []
    else if |s| >= 2 && s[0] == '\r' && s[1] == '\n' then [""] + SplitLines(s[2..])
    else if IsLineBreak(s[0]) then [""] + SplitLines(s[1..])
    else
      var rest := SplitLines(s[1..]);
      if rest == [] then [[s[0]]] else [[s[0]] + rest[0]] + rest[1..]
  }

  function CleanClaims(values: seq<string>): (r: seq<string>)
    ensures |r| == |values| && forall i :: 0 <= i < |r| ==> r[i] == CleanClaim(values[i])
  {
    seq(|values|, i requires 0 <= i < |values| => CleanClaim(values[i]))
  }

  predicate NotEmpty(s: string) { s != "" }

  /** The claim texts before duplicates are dropped: cleaned metadata claims, or the lines
      of the answer, or the whole answer when nothing else is left. */
  function ClaimCandidates(metadata: seq<Entry>, answer: string, str: Printer): seq<string> {
    var stated := MetadataClaims(metadata, str);
    var claims := Select(CleanClaims(if stated == [] then SplitLines(answer) else stated), NotEmpty);
    if claims == [] && Strip(answer) != "" then [Truncate(StripMarkdownNoise(answer), MAX_CLAIM_LENGTH)] else claims
  }

  // ------------------------------------------------------------ deduplication

  /** The whitespace-normalised, non-empty texts of `values`, in order. */
  function NormalTexts(values: seq<string>): seq<string> {
    if values == [] then []
    else
      var cleaned := Collapse(Strip(values[|values| - 1]));
      NormalTexts(values[..|values| - 1]) + (if cleaned == "" then [] else [cleaned])
  }

  function Take<T>(xs: seq<T>, limit: Option<nat>): seq<T> {
    if limit.Some? && limit.value < |xs| then xs[..limit.value] else xs
  }

  function DedupeNonEmpty(values: seq<string>, limit: Option<nat>): seq<string> {
    Take(Dedupe(NormalTexts(values)), limit)
  }

  lemma TakeOfPrefix<T>(front: seq<T>, all: seq<T>)
    requires front <= all
    ensures Take(all, Some(|front|)) == front
  {
  }

  /** What is kept of the first `i` values. */
  function KeptOf(values: seq<string>, i: nat): seq<string>
    requires i <= |values|
  {
    Dedupe(NormalTexts(values[..i]))
  }

  method DedupeNonEmptyLoop(values: seq<string>, limit: Option<nat>) returns (deduped: seq<string>)
    requires limit.Some? ==> limit.value >= 1
    ensures deduped == DedupeNonEmpty(values, limit)
  {
    var seen: set<string> := {};
    deduped := [];
    for i := 0 to |values|
      invariant deduped == KeptOf(values, i)
      invariant limit.Some? ==> |deduped| < limit.value
      invariant forall x :: x in seen <==> x in deduped
    {
      KeptStep(values, i);
      deduped, seen := KeepOne(Collapse(Strip(values[i])), deduped, seen);
      if limit.Some? && |deduped| >= limit.value {
        KeptIsEnough(values, i + 1, limit.value);
        return;
      }
    }
    KeptIsAll(values, limit);
  }

  lemma KeptStep(values: seq<string>, i: nat)
    requires i < |values|
    ensures KeptOf(values, i + 1) == Keep(KeptOf(values, i), Collapse(Strip(values[i])))
  {
    NormalTextsStep(values, i);
  }

  /** Reaching the limit early is as good as reading on. */
  lemma KeptIsEnough(values: seq<string>, i: nat, limit: nat)
    requires i <= |values| && |KeptOf(values, i)| == limit
    ensures KeptOf(values, i) == DedupeNonEmpty(values, Some(limit))
  {
    NormalTextsPrefix(values, i);
    TakeOfPrefix(KeptOf(values, i), Dedupe(NormalTexts(values)));
  }

  lemma KeptIsAll(values: seq<string>, limit: Option<nat>)
    requires limit.Some? ==> |KeptOf(values, |values|)| < limit.value
    ensures KeptOf(values, |values|) == DedupeNonEmpty(values, limit)
  {
    assert values[..|values|] == values;
  }

  function Keep(kept: seq<string>, text: string): seq<string> {
    if text == "" || text in kept then kept else kept + [text]
  }

  method KeepOne(text: string, kept: seq<string>, seen: set<string>) returns (kept': seq<string>, seen': set<string>)
    requires forall x :: x in seen <==> x in kept
    ensures kept' == Keep(kept, text) && |kept'| <= |kept| + 1
    ensures forall x :: x in seen' <==> x in kept'
  {
    if text == "" || text in seen {
      return kept, seen;
    }
    return kept + [text], seen + {text};
  }

  lemma NormalTextsStep(values: seq<string>, i: nat)
    requires i < |values|
    ensures Dedupe(NormalTexts(values[..i + 1])) == Keep(Dedupe(NormalTexts(values[..i])), Collapse(Strip(values[i])))
  {
    var before, cleaned := NormalTexts(values[..i]), Collapse(Strip(values[i]));
    assert values[..i + 1][..i] == values[..i];
    assert NormalTexts(values[..i + 1]) == before + (if cleaned == "" then [] else [cleaned]);
    ConcatUnit(before);
    DedupeSnoc(before, cleaned);
    DedupeMembers(before);
  }

  lemma {:induction false} NormalTextsPrefix(values: seq<string>, i: nat)
    requires i <= |values|
    ensures Dedupe(NormalTexts(values[..i])) <= Dedupe(NormalTexts(values))
    decreases |values|
  {
    if i == |values| {
      assert values[..i] == values;
    } else {
      var init := values[..|values| - 1];
      assert init[..i] == values[..i];
      NormalTextsPrefix(init, i);
      NormalTextsStep(values, |values| - 1);
      assert values[..|values| - 1 + 1] == values;
    }
  }

  lemma {:induction false} NormalTextsShape(values: seq<string>, max: nat)
    requires forall v :: v in values ==> |v| <= max
    ensures forall t :: t in NormalTexts(values) ==> t != "" && Collapsed(t) && |t| <= max
  {
    if values != [] {
      var init, last := values[..|values| - 1], values[|values| - 1];
      assert values == init + [last];
      NormalTextsShape(init, max);
      CollapseIsCollapsed(Strip(last));
      CollapseOfStrip(last);
      CollapseIsCollapsed(last);
    }
  }

  function ClaimTexts(metadata: seq<Entry>, answer: string, str: Printer): seq<string> {
    DedupeNonEmpty(ClaimCandidates(metadata, answer, str), Some(MAX_CLAIMS_PER_PAGE))
  }

  lemma CleanClaimIsShort(value: string)
    ensures |CleanClaim(value)| <= MAX_CLAIM_LENGTH + 2
  {
    TruncateExceedsByTwo(StripMarkdownNoise(value), MAX_CLAIM_LENGTH);
  }

  lemma CleanClaimsAreShort(values: seq<string>, claim: string)
    requires claim in CleanClaims(values)
    ensures |claim| <= MAX_CLAIM_LENGTH + 2
  {
    var i :| 0 <= i < |values| && CleanClaims(values)[i] == claim;
    CleanClaimIsShort(values[i]);
  }

  lemma CandidatesAreShort(metadata: seq<Entry>, answer: string, str: Printer, claim: string)
    requires claim in ClaimCandidates(metadata, answer, str)
    ensures |claim| <= MAX_CLAIM_LENGTH + 2
  {
    var stated := MetadataClaims(metadata, str);
    var values := if stated == [] then SplitLines(answer) else stated;
    if claim in CleanClaims(values) {
      CleanClaimsAreShort(values, claim);
    } else {
      TruncateExceedsByTwo(StripMarkdownNoise(answer), MAX_CLAIM_LENGTH);
    }
  }

  lemma DedupeNonEmptyFacts(values: seq<string>, limit: Option<nat>)
    ensures var r := DedupeNonEmpty(values, limit);
            && Distinct(r) && (limit.Some? ==> |r| <= limit.value)
            && r <= Dedupe(NormalTexts(values))
            && (forall t :: t in r ==> t in NormalTexts(values))
            && (r == [] <==> NormalTexts(values) == [] || limit == Some(0))
  {
    var all := Dedupe(NormalTexts(values));
    DedupeMembers(NormalTexts(values));
    var r := Take(all, limit);
    assert forall i :: 0 <= i < |r| ==> r[i] == all[i];
    if NormalTexts(values) != [] {
      assert NormalTexts(values)[0] in all;
    }
  }

  /** The texts that `DedupeNonEmpty` keeps come in the order of their first occurrence. */
  lemma KeepsFirstOccurrences(values: seq<string>, limit: Option<nat>, i: nat, j: nat)
    requires i < j < |DedupeNonEmpty(values, limit)|
    ensures var r, texts := DedupeNonEmpty(values, limit), NormalTexts(values);
            r[i] in texts && r[j] in texts && FirstIndex(texts, r[i]) < FirstIndex(texts, r[j])
  {
    DedupeKeepsFirstOccurrences(NormalTexts(values), i, j);
  }

  /** For every answer and metadata: the claims are pairwise distinct, whitespace-normalised
      and not empty, at most 8, of at most 702 characters each, and they are the first
      distinct normalised texts among the candidates; below 8, all of them. */
  lemma ClaimTextsFacts(metadata: seq<Entry>, answer: string, str: Printer)
    ensures var claims, texts := ClaimTexts(metadata, answer, str), NormalTexts(ClaimCandidates(metadata, answer, str));
            && Distinct(claims) && |claims| <= 8
            && (forall c :: c in claims ==> c in texts && c != "" && Collapsed(c) && |c| <= 702)
            && claims <= Dedupe(texts)
            && (|claims| < 8 ==> forall t :: t in texts ==> t in claims)
  {
    var candidates := ClaimCandidates(metadata, answer, str);
    forall c | c in candidates ensures |c| <= 702 {
      CandidatesAreShort(metadata, answer, str, c);
    }
    ClaimsOfShortTexts(candidates);
  }

  lemma ClaimsOfShortTexts(candidates: seq<string>)
    requires forall c :: c in candidates ==> |c| <= 702
    ensures var claims, texts := DedupeNonEmpty(candidates, Some(8)), NormalTexts(candidates);
            && Distinct(claims) && |claims| <= 8
            && (forall c :: c in claims ==> c in texts && c != "" && Collapsed(c) && |c| <= 702)
            && claims <= Dedupe(texts)
            && (|claims| < 8 ==> forall t :: t in texts ==> t in claims)
  {
    NormalTextsShape(candidates, 702);
    DedupeNonEmptyFacts(candidates, Some(8));
    DedupeMembers(NormalTexts(candidates));
  }

  // ----------------------------------------------------------- related pages

  function SourcePageTitle(sourceId: string): string { "Source " + sourceId }

  function SourceTitles(sources: seq<ClaimSourceInput>): seq<string> {
    if sources == [] then []
    else
      var last := sources[|sources| - 1];
      SourceTitles(sources[..|sources| - 1]) + (if last.sourceId == RAG_QUERY then [] else [SourcePageTitle(last.sourceId)])
  }

  function RelatedNames(metadata: seq<Entry>, sources: seq<ClaimSourceInput>, str: Printer): seq<string> {
    CoerceValues(Get(metadata, "related_pages"), NAME_KEYS, str) + SourceTitles(sources)
  }

  function SlugSeq(names: seq<string>): (r: seq<string>)
    ensures |r| == |names| && forall i :: 0 <= i < |r| ==> r[i] == Slugify(names[i])
  {
    seq(|names|, i requires 0 <= i < |names| => Slugify(names[i]))
  }

  /** One more name is chosen if its slug is not empty, not the page's own, and new. */
  function Choose(chosen: seq<string>, name: string, current: string): seq<string> {
    var slug := Slugify(name);
    if slug == "" || slug == current || slug in SlugSeq(chosen) then chosen else chosen + [name]
  }

  function FirstBySlug(names: seq<string>, current: string): seq<string> {
    if names == [] then [] else Choose(FirstBySlug(names[..|names| - 1], current), names[|names| - 1], current)
  }

  function RelatedPages(metadata: seq<Entry>, sources: seq<ClaimSourceInput>, current: string, str: Printer): seq<string> {
    Take(FirstBySlug(RelatedNames(metadata, sources, str), current), Some(MAX_RELATED_PAGES))
  }

  method ExtractRelatedPages(metadata: seq<Entry>, sources: seq<ClaimSourceInput>, current: string, str: Printer)
    returns (pages: seq<string>)
    ensures pages == RelatedPages(metadata, sources, current, str)
  {
    var related := AppendSourceTitles(CoerceValues(Get(metadata, "related_pages"), NAME_KEYS, str), sources);
    pages := ChooseBySlug(related, current);
  }

  method ChooseBySlug(related: seq<string>, current: string) returns (pages: seq<string>)
    ensures pages == Take(FirstBySlug(related, current), Some(MAX_RELATED_PAGES))
  {
    pages := [];
    var seen: set<string> := {};
    for i := 0 to |related|
      invariant pages == FirstBySlug(related[..i], current)
      invariant |pages| < MAX_RELATED_PAGES
      invariant forall x :: x in seen <==> x in SlugSeq(pages)
    {
      assert related[..i + 1][..i] == related[..i];
      pages, seen := ChooseOne(pages, seen, related[i], current);
      if |pages| >= MAX_RELATED_PAGES {
        FirstBySlugPrefix(related, current, i + 1);
        TakeOfPrefix(pages, FirstBySlug(related, current));
        return;
      }
    }
    assert related[..|related|] == related;
  }

  method ChooseOne(pages: seq<string>, seen: set<string>, name: string, current: string)
    returns (pages': seq<string>, seen': set<string>)
    requires forall x :: x in seen <==> x in SlugSeq(pages)
    ensures pages' == Choose(pages, name, current) && |pages'| <= |pages| + 1
    ensures forall x :: x in seen' <==> x in SlugSeq(pages')
  {
    var slug := Slugify(name);
    if slug == "" || slug == current || slug in seen {
      return pages, seen;
    }
    SlugSeqSnoc(pages, name);
    return pages + [name], seen + {slug};
  }

  lemma SlugSeqSnoc(names: seq<string>, name: string)
    ensures SlugSeq(names + [name]) == SlugSeq(names) + [Slugify(name)]
  {
  }

  method AppendSourceTitles(names: seq<string>, sources: seq<ClaimSourceInput>) returns (related: seq<string>)
    ensures related == names + SourceTitles(sources)
  {
    related := names;
    for i := 0 to |sources|
      invariant related == names + SourceTitles(sources[..i])
    {
      assert sources[..i + 1][..i] == sources[..i];
      if sources[i].sourceId == RAG_QUERY {
        continue;
      }
      related := related + [SourcePageTitle(sources[i].sourceId)];
    }
    assert sources[..|sources|] == sources;
  }

  lemma {:induction false} FirstBySlugPrefix(names: seq<string>, current: string, i: nat)
    requires i <= |names|
    ensures FirstBySlug(names[..i], current) <= FirstBySlug(names, current)
    decreases |names|
  {
    if i == |names| {
      assert names[..i] == names;
    } else {
      assert names[..|names| - 1][..i] == names[..i];
      FirstBySlugPrefix(names[..|names| - 1], current, i);
    }
  }

  lemma {:induction false} FirstBySlugFacts(names: seq<string>, current: string)
    ensures Distinct(SlugSeq(FirstBySlug(names, current)))
    ensures forall n :: n in FirstBySlug(names, current) ==> n in names && Slugify(n) != "" && Slugify(n) != current
    ensures forall n :: n in names && Slugify(n) != "" && Slugify(n) != current ==> Slugify(n) in SlugSeq(FirstBySlug(names, current))
  {
    if names != [] {
      var init, last := names[..|names| - 1], names[|names| - 1];
      assert names == init + [last];
      FirstBySlugFacts(init, current);
      var d := FirstBySlug(init, current);
      assert SlugSeq(d + [last]) == SlugSeq(d) + [Slugify(last)];
    }
  }

  /** The chosen pages have distinct, non-empty slugs other than the page's own, and are at
      most 8; below 8, every named page with such a slug is among them. */
  lemma RelatedPagesFacts(metadata: seq<Entry>, sources: seq<ClaimSourceInput>, current: string, str: Printer)
    ensures var pages := RelatedPages(metadata, sources, current, str);
            && Distinct(SlugSeq(pages)) && |pages| <= 8
            && (forall n :: n in pages ==> Slugify(n) != "" && Slugify(n) != current)
            && (|pages| < 8 ==> forall n :: n in RelatedNames(metadata, sources, str) && Slugify(n) != "" && Slugify(n) != current
                                            ==> Slugify(n) in SlugSeq(pages))
  {
    var names := RelatedNames(metadata, sources, str);
    FirstBySlugFacts(names, current);
    var all, pages := FirstBySlug(names, current), RelatedPages(metadata, sources, current, str);
    assert forall i :: 0 <= i < |pages| ==> pages[i] == all[i] && SlugSeq(pages)[i] == SlugSeq(all)[i];
  }

  // ------------------------------------------------- concepts, questions, summary

  function KeyConcepts(metadata: seq<Entry>, fallback: string, str: Printer): seq<string> {
    var concepts := DedupeNonEmpty(
      CoerceValues(Get(metadata, "key_concepts"), NAME_KEYS, str)
      + CoerceValues(Get(metadata, "concepts"), NAME_KEYS, str)
      + CoerceValues(Get(metadata, "entities"), NAME_KEYS, str), Some(MAX_KEY_CONCEPTS));
    if concepts == [] then [fallback] else concepts
  }

  function OpenQuestions(metadata: seq<Entry>, str: Printer): seq<string> {
    var questions := DedupeNonEmpty(CoerceValues(Get(metadata, "open_questions"), CLAIM_KEYS, str), Some(MAX_CLAIMS_PER_PAGE));
    if questions == [] then ["No open questions were extracted from structured evidence."] else questions
  }

  function SummaryFromAnswer(answer: string): string {
    var stripped := StripMarkdownNoise(answer);
    if stripped == "" then NO_SUMMARY else Truncate(stripped, MAX_SUMMARY_LENGTH)
  }
}
