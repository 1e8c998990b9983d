/** Evidence sources: what the compiler reads out of the untyped metadata that a RAG
    query returns. `str` is Python's printing of a value that is not text. */
module Evidence {
  import opened Sequences
  import opened Text
  import opened Json
  import opened WikiStore

  const SOURCE_COLLECTION_KEYS := ["sources", "source", "references", "citations", "chunks", "contexts", "documents", "retrieved_docs"]
  const SOURCE_ID_KEYS := ["source_id", "doc_id", "document_id", "file_id", "id"]
  const DOCUMENT_URI_KEYS := ["document_uri", "uri", "url", "file_path", "path"]
  const CHUNK_ID_KEYS := ["chunk_id", "chunk", "chunk_key"]
  const ENTITY_ID_KEYS := ["entity_id", "entity"]
  const RELATION_ID_KEYS := ["relation_id", "relation"]
  const ASSET_URL_KEYS := ["asset_url", "image_url", "figure_url", "asset"]
  const PAGE_NO_KEYS := ["page_no", "page", "page_number"]
  const BBOX_KEYS := ["bbox", "bounding_box"]
  const QUOTE_KEYS := ["quote", "text", "content", "snippet"]
  const RAG_QUERY := "rag-query"
  const PROVENANCE_NOTE := "RAG runtime did not return chunk/entity provenance; raw query metadata is preserved here."

  type Printer = Json -> string

  /** `_coerce_text`: the stripped text of a value, unless it is null or blank. */
  function CoerceText(v: Json, str: Printer): Option<string> {
    if v.JNull? then None
    else
      var text := Strip(if v.JText? then v.text else str(v));
      if text == "" then None else Some(text)
  }

  /** What `read` makes of the first key's value that it makes something of. */
  function First<T>(entries: seq<Entry>, keys: seq<string>, read: Json -> Option<T>): Option<T> {
    if keys == [] then None
    else
      var value := read(Get(entries, keys[0]));
      if value.Some? then value else First(entries, keys[1..], read)
  }

  function TextReader(str: Printer): Json -> Option<string> { v => CoerceText(v, str) }

  function FirstText(entries: seq<Entry>, keys: seq<string>, str: Printer): Option<string> {
    First(entries, keys, TextReader(str))
  }

  function IntOf(v: Json): Option<int> {
    match v
    case JInt(n) => Some(n)
    case JText(s) => if AllDigits(Strip(s)) then Some(ParseDigits(Strip(s))) else None
    case _ => None
  }

  function MappingOf(v: Json): Option<Json> { if v.JObject? then Some(v) else None }

  function FirstInt(entries: seq<Entry>, keys: seq<string>): Option<int> { First(entries, keys, IntOf) }

  /** The first of the keys that holds an object. */
  function FirstMapping(entries: seq<Entry>, keys: seq<string>): Option<Json> { First(entries, keys, MappingOf) }

  predicate HasAnyKey(entries: seq<Entry>, keys: seq<string>) {
    exists i :: 0 <= i < |keys| && HasKey(entries, keys[i])
  }

  predicate HasSourceIdentity(entries: seq<Entry>) {
    HasAnyKey(entries, SOURCE_ID_KEYS + CHUNK_ID_KEYS + DOCUMENT_URI_KEYS)
  }

  /** `_flatten_source_items`: descends through lists and through objects without an identity. */
  function FlattenItems(v: Json): seq<Json>
    decreases v, 1
  {
    match v
    case JText(_) => [v]
    case JObject(entries) => if HasSourceIdentity(entries) then [v] else FlattenEntries(entries)
    case JList(items) => FlattenAll(items)
    case _ => []
  }

  function FlattenEntries(entries: seq<Entry>): seq<Json>
    decreases entries, 0
  {
    if entries == [] then [] else FlattenItems(entries[0].value) + FlattenEntries(entries[1..])
  }

  function FlattenAll(items: seq<Json>): seq<Json>
    decreases items, 0
  {
    if items == [] then [] else FlattenItems(items[0]) + FlattenAll(items[1..])
  }

  function CollectionItems(metadata: seq<Entry>, keys: seq<string>): seq<Json> {
    if keys == [] then []
    else
      (if HasKey(metadata, keys[0]) then FlattenItems(Get(metadata, keys[0])) else [])
      + CollectionItems(metadata, keys[1..])
  }

  function CandidateItems(metadata: seq<Entry>): seq<Json> {
    (if HasSourceIdentity(metadata) then [JObject(metadata)] else [])
    + CollectionItems(metadata, SOURCE_COLLECTION_KEYS)
  }

  predicate LooksLikeUri(s: string) { Contains(s, "://") || (s != "" && s[0] == '/') }

  /** `a or b` on optional text: empty text counts as absent. */
  function OrElse(a: Option<string>, b: Option<string>): Option<string> {
    if a.Some? && a.value != "" then a else b
  }

  function SourceFromItem(item: Json, fallback: Option<string>, str: Printer): Option<ClaimSourceInput> {
    match item
    case JText(s) =>
      Some(ClaimSourceInput(
        if fallback.Some? && fallback.value != "" then fallback.value else s,
        if LooksLikeUri(s) then Some(s) else None, None, None, None, None, None, None, None,
        JObject([Entry("raw_source", item), Entry("structured_source_ids_available", JBool(false))])))
    case JObject(entries) =>
      var id := OrElse(FirstText(entries, SOURCE_ID_KEYS, str), fallback);
      if id.None? || id.value == "" then None
      else
        Some(ClaimSourceInput(
          id.value, FirstText(entries, DOCUMENT_URI_KEYS, str), FirstText(entries, CHUNK_ID_KEYS, str),
          FirstText(entries, ENTITY_ID_KEYS, str), FirstText(entries, RELATION_ID_KEYS, str),
          FirstText(entries, ASSET_URL_KEYS, str), FirstInt(entries, PAGE_NO_KEYS), FirstMapping(entries, BBOX_KEYS),
          FirstText(entries, QUOTE_KEYS, str),
          JObject([Entry("raw_source", item), Entry("structured_source_ids_available", JBool(true))])))
    case _ => None
  }

  /** The source that stands for the query itself when the metadata names none. */
  function QuerySource(metadata: seq<Entry>, query: string, fallback: Option<string>): ClaimSourceInput {
    ClaimSourceInput(
      if fallback.Some? && Strip(fallback.value) != "" then Strip(fallback.value) else RAG_QUERY,
      None, None, None, None, None, None, None, None,
      JObject([Entry("evidence_query", JText(query)), Entry("rag_metadata", JObject(metadata)),
               Entry("structured_source_ids_available", JBool(false)), Entry("provenance_note", JText(PROVENANCE_NOTE))]))
  }

  datatype SourceKey = SourceKey(sourceId: string, chunkId: Option<string>, entityId: Option<string>,
                                 relationId: Option<string>, quote: Option<string>)

  function KeyOf(s: ClaimSourceInput): SourceKey { SourceKey(s.sourceId, s.chunkId, s.entityId, s.relationId, s.quote) }

  function SourcesFrom(items: seq<Json>, fallback: Option<string>, str: Printer): seq<ClaimSourceInput> {
    if items == [] then []
    else
      var source := SourceFromItem(items[|items| - 1], fallback, str);
      SourcesFrom(items[..|items| - 1], fallback, str) + (if source.Some? then [source.value] else [])
  }

  function Keys(sources: seq<ClaimSourceInput>): (r: seq<SourceKey>)
    ensures |r| == |sources| && forall i :: 0 <= i < |r| ==> r[i] == KeyOf(sources[i])
  {
    seq(|sources|, i requires 0 <= i < |sources| => KeyOf(sources[i]))
  }

  /** The sources whose key is new, in order. */
  function FirstByKey(sources: seq<ClaimSourceInput>): seq<ClaimSourceInput> {
    if sources == [] then []
    else
      var init, last := FirstByKey(sources[..|sources| - 1]), sources[|sources| - 1];
      if KeyOf(last) in Keys(init) then init else init + [last]
  }

  function AllSources(metadata: seq<Entry>, query: string, fallback: Option<string>, str: Printer): (r: seq<ClaimSourceInput>)
    ensures r != []
  {
    var found := SourcesFrom(CandidateItems(metadata), fallback, str);
    if found == [] then [QuerySource(metadata, query, fallback)] else found
  }

  function Sources(metadata: seq<Entry>, query: string, fallback: Option<string>, str: Printer): seq<ClaimSourceInput> {
    FirstByKey(AllSources(metadata, query, fallback, str))
  }

  /** `_extract_sources`, with its loops. */
  method ExtractSources(metadata: seq<Entry>, query: string, fallback: Option<string>, str: Printer)
    returns (deduped: seq<ClaimSourceInput>)
    ensures deduped == Sources(metadata, query, fallback, str)
  {
    var sources := CollectSources(CandidateItems(metadata), fallback, str);
    if sources == [] {
      sources := [QuerySource(metadata, query, fallback)];
    }
    deduped := DedupeByKey(sources);
  }

  method CollectSources(items: seq<Json>, fallback: Option<string>, str: Printer) returns (sources: seq<ClaimSourceInput>)
    ensures sources == SourcesFrom(items, fallback, str)
  {
    sources := [];
    for i := 0 to |items|
      invariant sources == SourcesFrom(items[..i], fallback, str)
    {
      assert items[..i + 1][..i] == items[..i];
      var source := SourceFromItem(items[i], fallback, str);
      if source.Some? {
        sources := sources + [source.value];
      }
    }
    assert items[..|items|] == items;
  }

  method DedupeByKey(sources: seq<ClaimSourceInput>) returns (deduped: seq<ClaimSourceInput>)
    ensures deduped == FirstByKey(sources)
  {
    deduped := [];
    var seen: set<SourceKey> := {};
    for i := 0 to |sources|
      invariant deduped == FirstByKey(sources[..i])
      invariant forall k :: k in seen <==> k in Keys(deduped)
    {
      assert sources[..i + 1][..i] == sources[..i];
      var key := KeyOf(sources[i]);
      if key in seen {
        continue;
      }
      seen := seen + {key};
      assert Keys(deduped + [sources[i]]) == Keys(deduped) + [key];
      deduped := deduped + [sources[i]];
    }
    assert sources[..|sources|] == sources;
  }

  // --------------------------------------------------- texts and page numbers

  /** Text is read without the whitespace around it, null and blank text not at all, and any other
      value as it is printed. */
  lemma TextIsReadStripped(v: Json, str: Printer)
    ensures v.JText? ==> CoerceText(v, str) == if Strip(v.text) == "" then None else Some(Strip(v.text))
    ensures v.JNull? ==> CoerceText(v, str) == None
    ensures !v.JText? && !v.JNull? ==> CoerceText(v, str) == CoerceText(JText(str(v)), str)
    ensures CoerceText(v, str).Some? ==>
              var t := CoerceText(v, str).value; t != "" && !IsSpace(t[0]) && !IsSpace(t[|t| - 1])
  {
    StripShape(if v.JText? then v.text else str(v));
  }

  /** A page number is read from a number and from its printed form, with whitespace around it, and
      never from a boolean or from text that is not all digits. */
  lemma PageNumberReadsBack(n: nat, before: string, after: string)
    requires forall c :: c in before || c in after ==> IsSpace(c)
    ensures IntOf(JInt(n)) == Some(n) && IntOf(JText(before + Digits(n) + after)) == Some(n)
  {
    DigitsReadBack(n);
    StripPadded(before, Digits(n), after);
    DigitsAreRead(before + Digits(n) + after, Digits(n));
  }

  lemma DigitsAreRead(text: string, digits: string)
    requires Strip(text) == digits && AllDigits(digits)
    ensures IntOf(JText(text)) == Some(ParseDigits(digits))
  {
  }

  lemma PageNumberIff(v: Json)
    ensures IntOf(v).Some? <==> v.JInt? || (v.JText? && AllDigits(Strip(v.text)))
    ensures IntOf(v).Some? && IntOf(v).value < 0 ==> v == JInt(IntOf(v).value)
  {
  }

  // ------------------------------------------- what the flattening reaches

  /** The object has an identity: one of the keys for a source, a chunk or a document. */
  predicate Identified(entries: seq<Entry>) {
    exists i :: 0 <= i < |entries| &&
      (entries[i].key in SOURCE_ID_KEYS || entries[i].key in CHUNK_ID_KEYS || entries[i].key in DOCUMENT_URI_KEYS)
  }

  lemma {:induction false} HasKeyIff(entries: seq<Entry>, key: string)
    ensures HasKey(entries, key) <==> exists i :: 0 <= i < |entries| && entries[i].key == key
  {
    if entries != [] {
      HasKeyIff(entries[1..], key);
      assert forall i :: 0 < i < |entries| ==> entries[i] == entries[1..][i - 1];
      if HasKey(entries[1..], key) {
        var i :| 0 <= i < |entries[1..]| && entries[1..][i].key == key;
        assert entries[i + 1].key == key;
      }
    }
  }

  /** A value is read from the first entry under its key, and is null without one. */
  lemma {:induction false} GetIsFirst(entries: seq<Entry>, key: string, i: nat)
    requires i <= |entries| && forall k :: 0 <= k < i ==> entries[k].key != key
    ensures i < |entries| && entries[i].key == key ==> Get(entries, key) == entries[i].value
    ensures i == |entries| ==> Get(entries, key) == JNull
  {
    if i > 0 {
      assert forall k :: 0 <= k < i - 1 ==> entries[1..][k] == entries[k + 1];
      GetIsFirst(entries[1..], key, i - 1);
    }
  }

  lemma IdentityIsAKey(entries: seq<Entry>)
    ensures HasSourceIdentity(entries) <==> Identified(entries)
  {
    var keys := SOURCE_ID_KEYS + CHUNK_ID_KEYS + DOCUMENT_URI_KEYS;
    if HasSourceIdentity(entries) {
      var k :| 0 <= k < |keys| && HasKey(entries, keys[k]);
      HasKeyIff(entries, keys[k]);
      assert keys[k] in keys;
    }
    if Identified(entries) {
      var i :| 0 <= i < |entries| &&
        (entries[i].key in SOURCE_ID_KEYS || entries[i].key in CHUNK_ID_KEYS || entries[i].key in DOCUMENT_URI_KEYS);
      HasKeyIff(entries, entries[i].key);
      assert entries[i].key in keys;
      var k :| 0 <= k < |keys| && keys[k] == entries[i].key;
      assert HasKey(entries, keys[k]);
    }
  }

  /** A value that stands for a source by itself: text, or an object with an identity. */
  predicate IsSourceItem(v: Json) { v.JText? || (v.JObject? && Identified(v.entries)) }

  /** The value at a path of positions, through lists and through objects that have no
      identity of their own. */
  function Walk(v: Json, path: seq<nat>): Option<Json>
    decreases |path|
  {
    if path == [] then Some(v)
    else
      match v
      case JList(items) => if path[0] < |items| then Walk(items[path[0]], path[1..]) else None
      case JObject(entries) =>
        if path[0] < |entries| && !Identified(entries) then Walk(entries[path[0]].value, path[1..]) else None
      case _ => None
  }

  lemma {:induction false} ReachedIsFlattened(v: Json, path: seq<nat>, item: Json)
    requires Walk(v, path) == Some(item) && IsSourceItem(item)
    ensures item in FlattenItems(v)
    decreases |path|
  {
    if path == [] {
      if item.JObject? {
        IdentityIsAKey(item.entries);
      }
    } else {
      match v {
        case JList(items) =>
          ReachedIsFlattened(items[path[0]], path[1..], item);
          InFlattenAll(items, path[0], item);
        case JObject(entries) =>
          IdentityIsAKey(entries);
          ReachedIsFlattened(entries[path[0]].value, path[1..], item);
          InFlattenEntries(entries, path[0], item);
        case _ =>
      }
    }
  }

  lemma {:induction false} InFlattenAll(items: seq<Json>, i: nat, item: Json)
    requires i < |items| && item in FlattenItems(items[i])
    ensures item in FlattenAll(items)
  {
    if i > 0 {
      InFlattenAll(items[1..], i - 1, item);
    }
  }

  lemma {:induction false} InFlattenEntries(entries: seq<Entry>, i: nat, item: Json)
    requires i < |entries| && item in FlattenItems(entries[i].value)
    ensures item in FlattenEntries(entries)
  {
    if i > 0 {
      InFlattenEntries(entries[1..], i - 1, item);
    }
  }

  lemma {:induction false} FlattenedIsReached(v: Json, item: Json) returns (path: seq<nat>)
    requires item in FlattenItems(v)
    ensures Walk(v, path) == Some(item) && IsSourceItem(item)
    decreases v, 1
  {
    path := [];
    match v {
      case JObject(entries) =>
        IdentityIsAKey(entries);
        if !HasSourceIdentity(entries) {
          var i, rest := FlattenedEntry(entries, item);
          path := [i] + rest;
        }
      case JList(items) =>
        var i, rest := FlattenedElement(items, item);
        path := [i] + rest;
      case _ =>
    }
  }

  lemma {:induction false} FlattenedEntry(entries: seq<Entry>, item: Json) returns (i: nat, path: seq<nat>)
    requires item in FlattenEntries(entries)
    ensures i < |entries| && Walk(entries[i].value, path) == Some(item) && IsSourceItem(item)
    decreases entries, 0
  {
    if item in FlattenItems(entries[0].value) {
      i := 0;
      path := FlattenedIsReached(entries[0].value, item);
    } else {
      i, path := FlattenedEntry(entries[1..], item);
      i := i + 1;
    }
  }

  lemma {:induction false} FlattenedElement(items: seq<Json>, item: Json) returns (i: nat, path: seq<nat>)
    requires item in FlattenAll(items)
    ensures i < |items| && Walk(items[i], path) == Some(item) && IsSourceItem(item)
    decreases items, 0
  {
    if item in FlattenItems(items[0]) {
      i := 0;
      path := FlattenedIsReached(items[0], item);
    } else {
      i, path := FlattenedElement(items[1..], item);
      i := i + 1;
    }
  }

  /** The flattening yields exactly the source items that are reached through lists and
      identity-free objects, at any depth. */
  lemma FlattenIsReach(v: Json, item: Json)
    ensures item in FlattenItems(v) <==> IsSourceItem(item) && exists path :: Walk(v, path) == Some(item)
  {
    if item in FlattenItems(v) {
      var path := FlattenedIsReached(v, item);
    }
    if IsSourceItem(item) && exists path :: Walk(v, path) == Some(item) {
      var path :| Walk(v, path) == Some(item);
      ReachedIsFlattened(v, path, item);
    }
  }

  lemma {:induction false} FlattenAllConcat(a: seq<Json>, b: seq<Json>)
    ensures FlattenAll(a + b) == FlattenAll(a) + FlattenAll(b)
  {
    if a == [] {
      assert a + b == b;
    } else {
      assert (a + b)[1..] == a[1..] + b && (a + b)[0] == a[0];
      FlattenAllConcat(a[1..], b);
      ConcatAssoc(FlattenItems(a[0]), FlattenAll(a[1..]), FlattenAll(b));
    }
  }

  lemma {:induction false} FlattenEntriesConcat(a: seq<Entry>, b: seq<Entry>)
    ensures FlattenEntries(a + b) == FlattenEntries(a) + FlattenEntries(b)
  {
    if a == [] {
      assert a + b == b;
    } else {
      assert (a + b)[1..] == a[1..] + b && (a + b)[0] == a[0];
      FlattenEntriesConcat(a[1..], b);
      ConcatAssoc(FlattenItems(a[0].value), FlattenEntries(a[1..]), FlattenEntries(b));
    }
  }

  /** The flattening keeps the order of lists. */
  lemma ListsFlattenInOrder(a: seq<Json>, b: seq<Json>, v: Json)
    ensures FlattenItems(JList(a + b)) == FlattenItems(JList(a)) + FlattenItems(JList(b))
    ensures FlattenItems(JList([v])) == FlattenItems(v)
  {
    FlattenAllConcat(a, b);
    assert [v][1..] == [];
    assert FlattenAll([v]) == FlattenItems(v) + FlattenAll([v][1..]);
  }

  /** And that of the values of objects without an identity. */
  lemma ObjectsFlattenInOrder(a: seq<Entry>, b: seq<Entry>)
    requires !Identified(a + b)
    ensures FlattenItems(JObject(a + b)) == FlattenItems(JObject(a)) + FlattenItems(JObject(b))
    ensures |a| == 1 ==> FlattenItems(JObject(a)) == FlattenItems(a[0].value)
  {
    FlattenEntriesConcat(a, b);
    PartsNotIdentified(a, b);
    IdentityIsAKey(a + b);
    IdentityIsAKey(a);
    IdentityIsAKey(b);
    if |a| == 1 {
      assert a[1..] == [];
      assert FlattenEntries(a) == FlattenItems(a[0].value) + FlattenEntries(a[1..]);
    }
  }

  lemma PartsNotIdentified(a: seq<Entry>, b: seq<Entry>)
    requires !Identified(a + b)
    ensures !Identified(a) && !Identified(b)
  {
    assert forall i :: 0 <= i < |a| ==> a[i] == (a + b)[i];
    assert forall i :: 0 <= i < |b| ==> b[i] == (a + b)[|a| + i];
  }

  /** An item that the metadata offers as a source: the metadata itself, or a source item
      reached from one of the collection keys. */
  ghost predicate Offered(metadata: seq<Entry>, item: Json) {
    || (item == JObject(metadata) && Identified(metadata))
    || (IsSourceItem(item) && ReachedFrom(metadata, SOURCE_COLLECTION_KEYS, item))
  }

  ghost predicate ReachedFrom(metadata: seq<Entry>, keys: seq<string>, item: Json) {
    exists key, path :: key in keys && HasKey(metadata, key) && Walk(Get(metadata, key), path) == Some(item)
  }

  lemma {:induction false} CollectionMember(metadata: seq<Entry>, keys: seq<string>, item: Json)
    ensures item in CollectionItems(metadata, keys) <==>
            exists i :: 0 <= i < |keys| && HasKey(metadata, keys[i]) && item in FlattenItems(Get(metadata, keys[i]))
  {
    if keys != [] {
      CollectionMember(metadata, keys[1..], item);
      if item in CollectionItems(metadata, keys[1..]) {
        var i :| 0 <= i < |keys[1..]| && HasKey(metadata, keys[1..][i]) && item in FlattenItems(Get(metadata, keys[1..][i]));
        assert keys[i + 1] == keys[1..][i];
      }
      if exists i :: 0 < i < |keys| && HasKey(metadata, keys[i]) && item in FlattenItems(Get(metadata, keys[i])) {
        var i :| 0 < i < |keys| && HasKey(metadata, keys[i]) && item in FlattenItems(Get(metadata, keys[i]));
        assert keys[i] == keys[1..][i - 1];
      }
    }
  }

  lemma CollectionReached(metadata: seq<Entry>, keys: seq<string>, item: Json)
    ensures item in CollectionItems(metadata, keys) <==> IsSourceItem(item) && ReachedFrom(metadata, keys, item)
  {
    CollectionMember(metadata, keys, item);
    if item in CollectionItems(metadata, keys) {
      var i :| 0 <= i < |keys| && HasKey(metadata, keys[i]) && item in FlattenItems(Get(metadata, keys[i]));
      var path := FlattenedIsReached(Get(metadata, keys[i]), item);
      assert keys[i] in keys;
    }
    if IsSourceItem(item) && ReachedFrom(metadata, keys, item) {
      var key, path :| key in keys && HasKey(metadata, key) && Walk(Get(metadata, key), path) == Some(item);
      ReachedIsFlattened(Get(metadata, key), path, item);
      var i :| 0 <= i < |keys| && keys[i] == key;
    }
  }

  lemma CandidatesAreOffered(metadata: seq<Entry>, item: Json)
    ensures item in CandidateItems(metadata) <==> Offered(metadata, item)
  {
    IdentityIsAKey(metadata);
    CollectionReached(metadata, SOURCE_COLLECTION_KEYS, item);
  }

  // ------------------------------------------------------------- provenance

  lemma {:induction false} SourcesFromMember(items: seq<Json>, fallback: Option<string>, str: Printer, s: ClaimSourceInput)
    ensures s in SourcesFrom(items, fallback, str) <==> exists item :: item in items && SourceFromItem(item, fallback, str) == Some(s)
  {
    if items != [] {
      var init, last := items[..|items| - 1], items[|items| - 1];
      assert items == init + [last];
      SourcesFromMember(init, fallback, str, s);
    }
  }

  lemma {:induction false} FirstByKeyFacts(sources: seq<ClaimSourceInput>)
    ensures Distinct(Keys(FirstByKey(sources)))
    ensures forall s :: s in FirstByKey(sources) ==> s in sources
    ensures forall s :: s in sources ==> KeyOf(s) in Keys(FirstByKey(sources))
    ensures sources != [] ==> FirstByKey(sources) != []
  {
    if sources != [] {
      var init, last := sources[..|sources| - 1], sources[|sources| - 1];
      assert sources == init + [last];
      FirstByKeyFacts(init);
      var d := FirstByKey(init);
      assert Keys(d + [last]) == Keys(d) + [KeyOf(last)];
    }
  }

  /** Of the sources with one key the first is kept, and what is kept is in the order of first occurrence. */
  lemma {:induction false} FirstByKeyIsFirst(sources: seq<ClaimSourceInput>)
    ensures Keys(FirstByKey(sources)) == Dedupe(Keys(sources))
    ensures forall i :: 0 <= i < |sources| && KeyOf(sources[i]) !in Keys(sources)[..i] ==> sources[i] in FirstByKey(sources)
  {
    if sources != [] {
      var init, last := sources[..|sources| - 1], sources[|sources| - 1];
      assert sources == init + [last];
      FirstByKeyIsFirst(init);
      var keys := Keys(init);
      assert Keys(sources) == keys + [KeyOf(last)];
      assert forall i :: 0 <= i <= |init| ==> Keys(sources)[..i] == keys[..i];
      DedupeMembers(keys);
      DedupeSnoc(keys, KeyOf(last));
      assert Keys(FirstByKey(init) + [last]) == Keys(FirstByKey(init)) + [KeyOf(last)];
    }
  }

  lemma {:induction false} SourcesFromConcat(a: seq<Json>, b: seq<Json>, fallback: Option<string>, str: Printer)
    ensures SourcesFrom(a + b, fallback, str) == SourcesFrom(a, fallback, str) + SourcesFrom(b, fallback, str)
  {
    if b == [] {
      assert a + b == a;
    } else {
      assert (a + b)[..|a + b| - 1] == a + b[..|b| - 1];
      SourcesFromConcat(a, b[..|b| - 1], fallback, str);
    }
  }

  lemma {:induction false} CollectionItemsConcat(metadata: seq<Entry>, a: seq<string>, b: seq<string>)
    ensures CollectionItems(metadata, a + b) == CollectionItems(metadata, a) + CollectionItems(metadata, b)
  {
    if a == [] {
      assert a + b == b;
    } else {
      assert (a + b)[1..] == a[1..] + b;
      CollectionItemsConcat(metadata, a[1..], b);
    }
  }

  /** The kept keys are in the order of their first occurrences. */
  lemma SourcesInOrder(metadata: seq<Entry>, query: string, fallback: Option<string>, str: Printer, i: nat, j: nat)
    requires i < j < |Sources(metadata, query, fallback, str)|
    ensures var kept, all := Keys(Sources(metadata, query, fallback, str)), Keys(AllSources(metadata, query, fallback, str));
            kept[i] in all && kept[j] in all && FirstIndex(all, kept[i]) < FirstIndex(all, kept[j])
  {
    var all := AllSources(metadata, query, fallback, str);
    FirstByKeyIsFirst(all);
    DedupeKeepsFirstOccurrences(Keys(all), i, j);
  }

  /** The items come in order: the metadata itself first, and the collections in the order of their keys. */
  lemma CandidatesInOrder(metadata: seq<Entry>, fallback: Option<string>, str: Printer, k: nat)
    requires k <= |SOURCE_COLLECTION_KEYS|
    ensures var own := if Identified(metadata) then [JObject(metadata)] else [];
            var first, later := CollectionItems(metadata, SOURCE_COLLECTION_KEYS[..k]), CollectionItems(metadata, SOURCE_COLLECTION_KEYS[k..]);
            && CandidateItems(metadata) == own + first + later
            && SourcesFrom(CandidateItems(metadata), fallback, str)
               == SourcesFrom(own, fallback, str) + SourcesFrom(first, fallback, str) + SourcesFrom(later, fallback, str)
  {
    IdentityIsAKey(metadata);
    var own := if Identified(metadata) then [JObject(metadata)] else [];
    var first, later := CollectionItems(metadata, SOURCE_COLLECTION_KEYS[..k]), CollectionItems(metadata, SOURCE_COLLECTION_KEYS[k..]);
    assert SOURCE_COLLECTION_KEYS[..k] + SOURCE_COLLECTION_KEYS[k..] == SOURCE_COLLECTION_KEYS;
    CollectionItemsConcat(metadata, SOURCE_COLLECTION_KEYS[..k], SOURCE_COLLECTION_KEYS[k..]);
    ConcatAssoc(own, first, later);
    SourcesFromConcat(own + first, later, fallback, str);
    SourcesFromConcat(own, first, fallback, str);
  }

  /** Two sources that the compiler takes for one: same source, chunk, entity, relation and quote. */
  predicate SameEvidence(a: ClaimSourceInput, b: ClaimSourceInput) {
    && a.sourceId == b.sourceId && a.chunkId == b.chunkId && a.entityId == b.entityId
    && a.relationId == b.relationId && a.quote == b.quote
  }

  /** The result is never empty and holds no two sources that are taken for one. */
  lemma SourcesDistinctNonEmpty(metadata: seq<Entry>, query: string, fallback: Option<string>, str: Printer)
    ensures var sources := Sources(metadata, query, fallback, str);
            sources != [] && forall i, j :: 0 <= i < j < |sources| ==> !SameEvidence(sources[i], sources[j])
  {
    var sources := Sources(metadata, query, fallback, str);
    FirstByKeyFacts(AllSources(metadata, query, fallback, str));
    forall i, j | 0 <= i < j < |sources| ensures !SameEvidence(sources[i], sources[j]) {
      assert Keys(sources)[i] != Keys(sources)[j];
    }
  }

  /** Nothing is lost: every offered item that yields a source is represented by one that is taken
      for the same. */
  lemma NoSourceLost(metadata: seq<Entry>, query: string, fallback: Option<string>, str: Printer, item: Json)
    requires Offered(metadata, item) && SourceFromItem(item, fallback, str).Some?
    ensures exists s :: s in Sources(metadata, query, fallback, str) && SameEvidence(s, SourceFromItem(item, fallback, str).value)
  {
    var source, sources := SourceFromItem(item, fallback, str).value, Sources(metadata, query, fallback, str);
    CandidatesAreOffered(metadata, item);
    SourcesFromMember(CandidateItems(metadata), fallback, str, source);
    FirstByKeyFacts(AllSources(metadata, query, fallback, str));
    var k :| 0 <= k < |Keys(sources)| && Keys(sources)[k] == KeyOf(source);
    assert sources[k] in sources && SameEvidence(sources[k], source);
  }

  /** An identity-bearing object yields a source exactly when one of its id keys holds text
      or a fallback id is given. */
  lemma ObjectYieldsSource(entries: seq<Entry>, fallback: Option<string>, str: Printer)
    ensures SourceFromItem(JObject(entries), fallback, str).Some? <==>
            (exists i :: 0 <= i < |SOURCE_ID_KEYS| && CoerceText(Get(entries, SOURCE_ID_KEYS[i]), str).Some?)
            || (fallback.Some? && fallback.value != "")
  {
    FirstTextIsText(entries, SOURCE_ID_KEYS, str);
  }

  lemma {:induction false} FirstTextIsText(entries: seq<Entry>, keys: seq<string>, str: Printer)
    ensures FirstText(entries, keys, str).Some? <==> exists i :: 0 <= i < |keys| && CoerceText(Get(entries, keys[i]), str).Some?
    ensures FirstText(entries, keys, str).Some? ==> FirstText(entries, keys, str).value != ""
  {
    if keys != [] {
      FirstTextIsText(entries, keys[1..], str);
      assert forall i :: 0 < i < |keys| ==> keys[i] == keys[1..][i - 1];
      assert forall i :: 0 <= i < |keys[1..]| ==> keys[1..][i] == keys[i + 1];
    }
  }

  /** The field is what the first listed key with anything to read holds, and it is absent
      exactly when no listed key has any. */
  ghost predicate IsFirst<T(!new)>(entries: seq<Entry>, keys: seq<string>, read: Json -> Option<T>, field: Option<T>) {
    match field
    case None => forall i :: 0 <= i < |keys| ==> read(Get(entries, keys[i])) == None
    case Some(_) =>
      exists i :: 0 <= i < |keys| && read(Get(entries, keys[i])) == field
                  && forall k :: 0 <= k < i ==> read(Get(entries, keys[k])) == None
  }

  lemma {:induction false} FirstIsFirst<T(!new)>(entries: seq<Entry>, keys: seq<string>, read: Json -> Option<T>)
    ensures IsFirst(entries, keys, read, First(entries, keys, read))
  {
    if keys != [] && read(Get(entries, keys[0])).None? {
      var rest := keys[1..];
      FirstIsFirst(entries, rest, read);
      assert forall k :: 0 < k < |keys| ==> keys[k] == rest[k - 1];
      if First(entries, rest, read).Some? {
        var i :| 0 <= i < |rest| && read(Get(entries, rest[i])) == First(entries, rest, read)
                 && forall k :: 0 <= k < i ==> read(Get(entries, rest[k])) == None;
        assert keys[i + 1] == rest[i];
      }
    }
  }

  /** The source carries exactly what its object holds under the listed keys, and its id is the
      object's, or the fallback id if the object has none. */
  ghost predicate CarriedBy(s: ClaimSourceInput, entries: seq<Entry>, fallback: Option<string>, str: Printer) {
    && (IsFirst(entries, SOURCE_ID_KEYS, TextReader(str), Some(s.sourceId))
        || (IsFirst(entries, SOURCE_ID_KEYS, TextReader(str), None) && Some(s.sourceId) == fallback && s.sourceId != ""))
    && s.locator == JObject([Entry("raw_source", JObject(entries)), Entry("structured_source_ids_available", JBool(true))])
    && IsFirst(entries, DOCUMENT_URI_KEYS, TextReader(str), s.documentUri)
    && IsFirst(entries, CHUNK_ID_KEYS, TextReader(str), s.chunkId)
    && IsFirst(entries, ENTITY_ID_KEYS, TextReader(str), s.entityId)
    && IsFirst(entries, RELATION_ID_KEYS, TextReader(str), s.relationId)
    && IsFirst(entries, ASSET_URL_KEYS, TextReader(str), s.assetUrl)
    && IsFirst(entries, PAGE_NO_KEYS, IntOf, s.pageNo)
    && IsFirst(entries, BBOX_KEYS, MappingOf, s.bbox)
    && IsFirst(entries, QUOTE_KEYS, TextReader(str), s.quote)
  }

  lemma ObjectSourceIsCarried(entries: seq<Entry>, fallback: Option<string>, str: Printer, s: ClaimSourceInput)
    requires SourceFromItem(JObject(entries), fallback, str) == Some(s)
    ensures CarriedBy(s, entries, fallback, str)
  {
    ObjectIdIsCarried(entries, fallback, str, s);
    FirstIsFirst(entries, DOCUMENT_URI_KEYS, TextReader(str));
    FirstIsFirst(entries, CHUNK_ID_KEYS, TextReader(str));
    FirstIsFirst(entries, ENTITY_ID_KEYS, TextReader(str));
    FirstIsFirst(entries, RELATION_ID_KEYS, TextReader(str));
    FirstIsFirst(entries, ASSET_URL_KEYS, TextReader(str));
    FirstIsFirst(entries, PAGE_NO_KEYS, IntOf);
    FirstIsFirst(entries, BBOX_KEYS, MappingOf);
    FirstIsFirst(entries, QUOTE_KEYS, TextReader(str));
  }

  lemma ObjectIdIsCarried(entries: seq<Entry>, fallback: Option<string>, str: Printer, s: ClaimSourceInput)
    requires SourceFromItem(JObject(entries), fallback, str) == Some(s)
    ensures IsFirst(entries, SOURCE_ID_KEYS, TextReader(str), Some(s.sourceId))
            || (IsFirst(entries, SOURCE_ID_KEYS, TextReader(str), None) && Some(s.sourceId) == fallback && s.sourceId != "")
  {
    FirstIsFirst(entries, SOURCE_ID_KEYS, TextReader(str));
    FirstTextIsText(entries, SOURCE_ID_KEYS, str);
  }

  ghost predicate HasUriForm(text: string) {
    (|text| > 0 && text[0] == '/') || exists i :: 0 <= i && i + 3 <= |text| && SchemeEndsAt(text, i)
  }

  predicate SchemeEndsAt(text: string, i: nat)
    requires i + 3 <= |text|
  {
    text[i] == ':' && text[i + 1] == '/' && text[i + 2] == '/'
  }

  lemma {:induction false} ContainsScheme(text: string)
    ensures Contains(text, "://") <==> exists i :: 0 <= i && i + 3 <= |text| && SchemeEndsAt(text, i)
  {
    if |text| >= 3 {
      assert text[..3] == "://" <==> SchemeEndsAt(text, 0);
      ContainsScheme(text[1..]);
      if Contains(text[1..], "://") {
        var i :| 0 <= i && i + 3 <= |text[1..]| && SchemeEndsAt(text[1..], i);
        assert SchemeEndsAt(text, i + 1);
      }
      if exists i :: 0 < i && i + 3 <= |text| && SchemeEndsAt(text, i) {
        var i :| 0 < i && i + 3 <= |text| && SchemeEndsAt(text, i);
        assert SchemeEndsAt(text[1..], i - 1);
      }
    }
  }

  lemma TextSourceIsCarried(text: string, fallback: Option<string>, str: Printer, s: ClaimSourceInput)
    requires SourceFromItem(JText(text), fallback, str) == Some(s)
    ensures CarriesText(s, text, fallback)
  {
    ContainsScheme(text);
  }

  /** A source for plain text has the fallback id, or the text as its id if none is given, and a
      URI exactly when the text starts with a slash or holds `://`. */
  ghost predicate CarriesText(s: ClaimSourceInput, text: string, fallback: Option<string>) {
    && s.sourceId == (if fallback.Some? && |fallback.value| > 0 then fallback.value else text)
    && s.documentUri == (if HasUriForm(text) then Some(text) else None)
    && s.locator == JObject([Entry("raw_source", JText(text)), Entry("structured_source_ids_available", JBool(false))])
    && s.chunkId == None && s.entityId == None && s.relationId == None && s.assetUrl == None
    && s.pageNo == None && s.bbox == None && s.quote == None
  }

  /** The source for a query that named none: the stripped fallback id, or `rag-query` if that is
      blank, and a record of the query and the whole metadata. */
  predicate StandsForQuery(s: ClaimSourceInput, metadata: seq<Entry>, query: string, fallback: Option<string>) {
    && s.sourceId == (if fallback.None? || Strip(fallback.value) == "" then "rag-query" else Strip(fallback.value))
    && s.documentUri == None && s.chunkId == None && s.entityId == None && s.relationId == None && s.assetUrl == None
    && s.pageNo == None && s.bbox == None && s.quote == None
    && s.locator.JObject?
    && Get(s.locator.entries, "evidence_query") == JText(query) && Get(s.locator.entries, "rag_metadata") == JObject(metadata)
    && Get(s.locator.entries, "structured_source_ids_available") == JBool(false)
  }

  lemma QuerySourceStandsForQuery(metadata: seq<Entry>, query: string, fallback: Option<string>)
    ensures StandsForQuery(QuerySource(metadata, query, fallback), metadata, query, fallback)
  {
    var entries := QuerySource(metadata, query, fallback).locator.entries;
    assert entries[1..][0].key == "rag_metadata" && entries[1..][1..][0].key == "structured_source_ids_available";
    assert Get(entries, "rag_metadata") == Get(entries[1..], "rag_metadata");
    assert Get(entries, "structured_source_ids_available") == Get(entries[1..], "structured_source_ids_available")
        == Get(entries[1..][1..], "structured_source_ids_available");
  }

  /** Nothing is invented: every source comes from an offered item, or stands for the query
      when no offered item yields one. A source that comes from an object carries what the
      object holds under the listed keys; one that comes from plain text has the fallback id,
      or the text itself as its id, and carries no more than a URI. */
  lemma NoSourceInvented(metadata: seq<Entry>, query: string, fallback: Option<string>, str: Printer, s: ClaimSourceInput)
    requires s in Sources(metadata, query, fallback, str)
    ensures (StandsForQuery(s, metadata, query, fallback)
             && forall item :: Offered(metadata, item) ==> SourceFromItem(item, fallback, str).None?)
            || exists item :: Offered(metadata, item) && SourceFromItem(item, fallback, str) == Some(s)
                 && (item.JObject? ==> CarriedBy(s, item.entries, fallback, str))
                 && (item.JText? ==> CarriesText(s, item.text, fallback))
  {
    var items := CandidateItems(metadata);
    FirstByKeyFacts(AllSources(metadata, query, fallback, str));
    if SourcesFrom(items, fallback, str) == [] {
      QuerySourceStandsForQuery(metadata, query, fallback);
      forall item | Offered(metadata, item) ensures SourceFromItem(item, fallback, str).None? {
        CandidatesAreOffered(metadata, item);
        if SourceFromItem(item, fallback, str).Some? {
          SourcesFromMember(items, fallback, str, SourceFromItem(item, fallback, str).value);
        }
      }
    } else {
      SourcesFromMember(items, fallback, str, s);
      var item :| item in items && SourceFromItem(item, fallback, str) == Some(s);
      CandidatesAreOffered(metadata, item);
      if item.JObject? {
        ObjectSourceIsCarried(item.entries, fallback, str, s);
      }
      if item.JText? {
        TextSourceIsCarried(item.text, fallback, str, s);
      }
    }
  }

  /** A source without an id gets through in exactly one situation: no fallback id is given
      and the metadata offers the empty text as a source. */
  lemma EmptySourceIdIff(metadata: seq<Entry>, query: string, fallback: Option<string>, str: Printer)
    ensures (exists s :: s in Sources(metadata, query, fallback, str) && s.sourceId == "") <==>
            (fallback.None? || fallback.value == "") && Offered(metadata, JText(""))
  {
    if exists s :: s in Sources(metadata, query, fallback, str) && s.sourceId == "" {
      var s :| s in Sources(metadata, query, fallback, str) && s.sourceId == "";
      EmptyIdIsOffered(metadata, query, fallback, str, s);
    }
    if (fallback.None? || fallback.value == "") && Offered(metadata, JText("")) {
      NoSourceLost(metadata, query, fallback, str, JText(""));
      var s :| s in Sources(metadata, query, fallback, str) && SameEvidence(s, SourceFromItem(JText(""), fallback, str).value);
      assert s.sourceId == "";
    }
  }

  /** Such an input: the metadata `{"sources": [""]}`, without a fallback id. */
  lemma EmptySourceId(query: string, str: Printer)
    ensures var metadata := [Entry("sources", JList([JText("")]))];
            exists s :: s in Sources(metadata, query, None, str) && s.sourceId == ""
  {
    var metadata := [Entry("sources", JList([JText("")]))];
    assert Walk(JText(""), []) == Some(JText(""));
    assert Walk(Get(metadata, "sources"), [0]) == Some(JText("")) by {
      assert [0][1..] == [];
    }
    assert SOURCE_COLLECTION_KEYS[0] == "sources" && HasKey(metadata, "sources");
    assert ReachedFrom(metadata, SOURCE_COLLECTION_KEYS, JText(""));
    EmptySourceIdIff(metadata, query, None, str);
  }

  lemma EmptyIdIsOffered(metadata: seq<Entry>, query: string, fallback: Option<string>, str: Printer, s: ClaimSourceInput)
    requires s in Sources(metadata, query, fallback, str) && s.sourceId == ""
    ensures (fallback.None? || fallback.value == "") && Offered(metadata, JText(""))
  {
    NoSourceInvented(metadata, query, fallback, str, s);
    var item :| Offered(metadata, item) && SourceFromItem(item, fallback, str) == Some(s);
    assert item == JText("");
  }

  /** The box of a source is read from `bbox`, and from `bounding_box` when `bbox` holds no object. */
  lemma BoundingBoxIsRead(entries: seq<Entry>)
    ensures FirstMapping(entries, BBOX_KEYS) ==
            if Get(entries, "bbox").JObject? then Some(Get(entries, "bbox"))
            else if Get(entries, "bounding_box").JObject? then Some(Get(entries, "bounding_box"))
            else None
  {
    var rest := BBOX_KEYS[1..];
    assert rest == ["bounding_box"] && rest[1..] == [];
    assert FirstMapping(entries, rest[1..]) == None;
    assert FirstMapping(entries, rest) == if Get(entries, rest[0]).JObject? then Some(Get(entries, rest[0])) else None;
  }
}
