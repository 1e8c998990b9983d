/** Where the extracted texts come from and in which order: the lines of an answer, the
    texts of untyped values, claims, concepts, questions and related pages. */
module ExtractedTexts {
  import opened Sequences
  import opened Text
  import opened Slugs
  import opened Json
  import opened WikiStore
  import opened Evidence
  import opened Extraction

  // ------------------------------------------------------------------- lines

  /** The characters that end a line, beside `\r\n`. */
  predicate EndsLine(c: char) {
    c == '\n' || c == '\r' || c == '\U{0B}' || c == '\U{0C}' || c == '\U{1C}' || c == '\U{1D}' || c == '\U{1E}'
  }

  /** A line without its end is one line, and nothing is none. */
  lemma {:induction false} OneLine(a: string)
    requires forall c :: c in a ==> !EndsLine(c)
    ensures SplitLines(a) == if a == "" then [] else [a]
  {
    if a != "" {
      assert a[0] in a;
      forall c | c in a[1..] ensures !EndsLine(c) { assert c in a; }
      OneLine(a[1..]);
      if |a| == 1 {
        assert a == [a[0]];
      } else {
        LineGrows(a, a, []);
      }
    }
  }

  /** A text is split after its first line end; `\r\n` is one end. */
  lemma {:induction false} FirstLineEnds(a: string, end: string, b: string)
    requires forall c :: c in a ==> !EndsLine(c)
    requires end == "\r\n" || (|end| == 1 && EndsLine(end[0]) && !(end == "\r" && b != "" && b[0] == '\n'))
    ensures SplitLines(a + end + b) == [a] + SplitLines(b)
  {
    var s := a + end + b;
    if a == "" {
      assert s == end + b;
      assert s[|end|..] == b;
      if end == "\r\n" {
        assert s[0] == '\r' && s[1] == '\n';
      } else {
        assert s[0] == end[0] && (|s| >= 2 ==> s[1] == b[0]);
      }
    } else {
      assert s[0] == a[0] && a[0] in a;
      assert s[1..] == a[1..] + end + b;
      forall c | c in a[1..] ensures !EndsLine(c) { assert c in a; }
      FirstLineEnds(a[1..], end, b);
      LineGrows(s, a, SplitLines(b));
    }
  }

  lemma LineGrows(s: string, a: string, more: seq<string>)
    requires a != "" && s != "" && s[0] == a[0] && !EndsLine(a[0]) && SplitLines(s[1..]) == [a[1..]] + more
    ensures SplitLines(s) == [a] + more
  {
    assert [a[0]] + a[1..] == a;
    assert ([a[1..]] + more)[1..] == more;
  }

  // ------------------------------------------------------------------ values

  lemma {:induction false} CoerceAllConcat(a: seq<Json>, b: seq<Json>, keys: seq<string>, str: Printer)
    ensures CoerceAll(a + b, keys, str) == CoerceAll(a, keys, str) + CoerceAll(b, keys, str)
  {
    if a == [] {
      assert a + b == b;
    } else {
      assert (a + b)[1..] == a[1..] + b;
      CoerceAllConcat(a[1..], b, keys, str);
    }
  }

  /** The texts of a list are those of its elements in order, at any depth. */
  lemma ListTextsInOrder(a: seq<Json>, b: seq<Json>, v: Json, keys: seq<string>, str: Printer)
    ensures CoerceValues(JList(a + b), keys, str) == CoerceValues(JList(a), keys, str) + CoerceValues(JList(b), keys, str)
    ensures CoerceValues(JList([v]), keys, str) == CoerceValues(v, keys, str)
  {
    CoerceAllConcat(a, b, keys, str);
    assert [v][1..] == [];
    assert CoerceAll([v], keys, str) == CoerceValues(v, keys, str) + CoerceAll([v][1..], keys, str);
  }

  /** Text stands for itself, an object for what its first listed key with any text holds, and
      nothing else for any text. */
  lemma ValueTexts(v: Json, keys: seq<string>, str: Printer)
    requires !v.JList?
    ensures var texts := CoerceValues(v, keys, str);
            match v
            case JText(s) => texts == [s]
            case JObject(entries) =>
              && |texts| <= 1
              && IsFirst(entries, keys, TextReader(str), if texts == [] then None else Some(texts[0]))
            case _ => texts == []
  {
    if v.JObject? {
      FirstIsFirst(v.entries, keys, TextReader(str));
    }
  }

  // ------------------------------------------------------------------ claims

  /** Claims are stated under three keys, in this order. */
  lemma StatedInOrder(metadata: seq<Entry>, str: Printer)
    ensures MetadataClaims(metadata, str) ==
            CoerceValues(JList([Get(metadata, "claims"), Get(metadata, "source_backed_claims"), Get(metadata, "statements")]),
                         ["claim_text", "claim", "text", "statement"], str)
  {
    var a, b, c := Get(metadata, "claims"), Get(metadata, "source_backed_claims"), Get(metadata, "statements");
    assert [a, b, c] == [a, b] + [c] && [a, b] == [a] + [b];
    ListTextsInOrder([a, b], [c], c, CLAIM_KEYS, str);
    ListTextsInOrder([a], [b], b, CLAIM_KEYS, str);
    ListTextsInOrder([], [], a, CLAIM_KEYS, str);
  }

  /** Selecting keeps the order: of two parts, first what is kept of the one, then of the other. */
  lemma {:induction false} SelectConcat(a: seq<string>, b: seq<string>, keep: string -> bool)
    ensures Select(a + b, keep) == Select(a, keep) + Select(b, keep)
    ensures |a| == 1 ==> Select(a, keep) == if keep(a[0]) then a else []
  {
    if b == [] {
      assert a + b == a;
    } else {
      assert (a + b)[..|a + b| - 1] == a + b[..|b| - 1];
      SelectConcat(a, b[..|b| - 1], keep);
    }
  }

  /** The candidates come from the stated claims if any text is stated at all, and otherwise from
      the lines of the answer: the cleaned, non-empty ones, in order. When there are none, the whole answer is
      one candidate, unless it is blank. */
  lemma CandidatesComeFrom(metadata: seq<Entry>, answer: string, str: Printer)
    ensures var stated, candidates := MetadataClaims(metadata, str), ClaimCandidates(metadata, answer, str);
            var cleaned := CleanClaims(if |stated| > 0 then stated else SplitLines(answer));
            if exists c :: c in cleaned && c != "" then candidates == Select(cleaned, NotEmpty)
            else candidates == if Strip(answer) == "" then [] else [Truncate(StripMarkdownNoise(answer), 700)]
  {
    var stated := MetadataClaims(metadata, str);
    var values := if |stated| > 0 then stated else SplitLines(answer);
    NotEmptyMembers(CleanClaims(values));
    CandidatesOf(metadata, answer, str, values, Select(CleanClaims(values), NotEmpty));
  }

  lemma CandidatesOf(metadata: seq<Entry>, answer: string, str: Printer, values: seq<string>, claims: seq<string>)
    requires values == if MetadataClaims(metadata, str) == [] then SplitLines(answer) else MetadataClaims(metadata, str)
    requires claims == Select(CleanClaims(values), NotEmpty)
    ensures ClaimCandidates(metadata, answer, str) ==
            if claims == [] && Strip(answer) != "" then [Truncate(StripMarkdownNoise(answer), 700)] else claims
  {
  }

  lemma NotEmptyMembers(texts: seq<string>)
    ensures forall c :: c in Select(texts, NotEmpty) <==> c in texts && c != ""
    ensures Select(texts, NotEmpty) == [] <==> forall c :: c in texts ==> c == ""
  {
    var kept := Select(texts, NotEmpty);
    assert kept != [] ==> kept[0] in kept;
  }

  // ----------------------------------------------------- concepts, questions

  /** A list section: the first distinct normalised texts, or a placeholder when there are none. */
  ghost predicate ListSection(section: seq<string>, texts: seq<string>, most: nat, placeholder: string) {
    if texts == [] then section == [placeholder]
    else
      && section != [] && |section| <= most && Distinct(section) && section <= Dedupe(texts)
      && (|section| < most ==> forall t :: t in texts ==> t in section)
  }

  lemma ListSectionOf(values: seq<string>, most: nat, placeholder: string)
    requires most >= 1
    ensures var found := DedupeNonEmpty(values, Some(most));
            ListSection(if found == [] then [placeholder] else found, NormalTexts(values), most, placeholder)
  {
    DedupeNonEmptyFacts(values, Some(most));
    DedupeMembers(NormalTexts(values));
  }

  lemma OpenQuestionsFacts(metadata: seq<Entry>, str: Printer)
    ensures ListSection(OpenQuestions(metadata, str),
                        NormalTexts(CoerceValues(Get(metadata, "open_questions"), ["claim_text", "claim", "text", "statement"], str)),
                        8, "No open questions were extracted from structured evidence.")
  {
    ListSectionOf(CoerceValues(Get(metadata, "open_questions"), CLAIM_KEYS, str), 8,
                  "No open questions were extracted from structured evidence.");
  }

  lemma KeyConceptsFacts(metadata: seq<Entry>, title: string, str: Printer)
    ensures ListSection(KeyConcepts(metadata, title, str),
                        NormalTexts(CoerceValues(JList([Get(metadata, "key_concepts"), Get(metadata, "concepts"), Get(metadata, "entities")]),
                                                 ["name", "title", "label", "entity_name", "concept"], str)),
                        10, title)
  {
    var a, b, c := Get(metadata, "key_concepts"), Get(metadata, "concepts"), Get(metadata, "entities");
    assert [a, b, c] == [a, b] + [c] && [a, b] == [a] + [b];
    ListTextsInOrder([a, b], [c], c, NAME_KEYS, str);
    ListTextsInOrder([a], [b], b, NAME_KEYS, str);
    ListTextsInOrder([], [], a, NAME_KEYS, str);
    ListSectionOf(CoerceValues(a, NAME_KEYS, str) + CoerceValues(b, NAME_KEYS, str) + CoerceValues(c, NAME_KEYS, str), 10, title);
  }

  // ----------------------------------------------------------- related pages

  lemma {:induction false} SourceTitlesConcat(a: seq<ClaimSourceInput>, b: seq<ClaimSourceInput>)
    ensures SourceTitles(a + b) == SourceTitles(a) + SourceTitles(b)
  {
    if b == [] {
      assert a + b == a;
    } else {
      assert (a + b)[..|a + b| - 1] == a + b[..|b| - 1];
      SourceTitlesConcat(a, b[..|b| - 1]);
    }
  }

  /** Related are first the pages that the metadata names, and then the page of each source in order,
      except for the one that stands for the query. */
  lemma RelatedNamesInOrder(metadata: seq<Entry>, front: seq<ClaimSourceInput>, s: ClaimSourceInput, str: Printer)
    ensures RelatedNames(metadata, [], str) ==
            CoerceValues(Get(metadata, "related_pages"), ["name", "title", "label", "entity_name", "concept"], str)
    ensures RelatedNames(metadata, front + [s], str) ==
            RelatedNames(metadata, front, str) + (if s.sourceId == "rag-query" then [] else ["Source " + s.sourceId])
  {
    SourceTitlesConcat(front, [s]);
    assert [s][..0] == [];
    ConcatUnit(CoerceValues(Get(metadata, "related_pages"), NAME_KEYS, str));
    ConcatAssoc(CoerceValues(Get(metadata, "related_pages"), NAME_KEYS, str), SourceTitles(front), SourceTitles([s]));
  }

  /** The slugs of `names` that a page can be related to. */
  function OtherSlugs(names: seq<string>, current: string): seq<string> {
    if names == [] then []
    else
      var slug := Slugify(names[|names| - 1]);
      OtherSlugs(names[..|names| - 1], current) + (if slug == "" || slug == current then [] else [slug])
  }

  lemma {:induction false} ChosenAreFirst(names: seq<string>, current: string)
    ensures SlugSeq(FirstBySlug(names, current)) == Dedupe(OtherSlugs(names, current))
  {
    if names != [] {
      var init, last := names[..|names| - 1], names[|names| - 1];
      ChosenAreFirst(init, current);
      ConcatUnit(OtherSlugs(init, current));
      DedupeSnoc(OtherSlugs(init, current), Slugify(last));
      DedupeMembers(OtherSlugs(init, current));
      SlugSeqSnoc(FirstBySlug(init, current), last);
    }
  }

  /** The slugs of the chosen pages are the first eight distinct ones among the names' slugs, in order. */
  lemma RelatedPagesAreFirst(metadata: seq<Entry>, sources: seq<ClaimSourceInput>, current: string, str: Printer)
    ensures var slugs := Dedupe(OtherSlugs(RelatedNames(metadata, sources, str), current));
            SlugSeq(RelatedPages(metadata, sources, current, str)) == if |slugs| <= 8 then slugs else slugs[..8]
  {
    var names := RelatedNames(metadata, sources, str);
    ChosenAreFirst(names, current);
    var all, pages := FirstBySlug(names, current), RelatedPages(metadata, sources, current, str);
    assert |SlugSeq(all)| == |all| && pages <= all;
    assert forall i :: 0 <= i < |pages| ==> SlugSeq(pages)[i] == SlugSeq(all)[i];
  }
}
