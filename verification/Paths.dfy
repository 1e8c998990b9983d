/** Paths and object keys: what the API stages and stores under a key, the worker
    finds again from the key alone, and different documents never share a key. */
module Paths {
  import opened Sequences
  import opened Text

  /** A POSIX path below a fixed root directory, as its parts. */
  type Parts = seq<string>

  datatype PathError =
    | FileNotFound
    | EmptySegment(name: string)
    | NotSingleSegment(name: string)
    | RelativeMarker(name: string)
    | InvalidFilename
    | OutsideTree

  /** Splits at every slash: `"a//b"` has three pieces. */
  function SplitSlash(s: string): (r: seq<string>)
    ensures r != []
  {
    if s == "" then [""]
    else
      var rest := SplitSlash(s[1..]);
      if s[0] == '/' then [""] + rest else [[s[0]] + rest[0]] + rest[1..]
  }

  lemma {:induction false} PiecesHaveNoSlash(s: string)
    ensures forall i :: 0 <= i < |SplitSlash(s)| ==> '/' !in SplitSlash(s)[i]
  {
    if s != "" {
      PiecesHaveNoSlash(s[1..]);
    }
  }

  function RealParts(pieces: seq<string>): (r: Parts)
    ensures forall p :: p in r ==> p != "" && p != "." && p in pieces
  {
    if pieces == [] then []
    else
      var init, last := pieces[..|pieces| - 1], pieces[|pieces| - 1];
      assert pieces == init + [last];
      RealParts(init) + (if last == "" || last == "." then [] else [last])
  }

  /** `Path(s).name`: the last part, ignoring empty and `.` pieces. */
  function PosixName(s: string): (r: string)
    ensures '/' !in r && r != "."
  {
    var parts := RealParts(SplitSlash(s));
    PiecesHaveNoSlash(s);
    if parts == [] then ""
    else
      assert parts[|parts| - 1] in parts;
      parts[|parts| - 1]
  }

  /** Names one file or directory directly below the directory it is joined to. */
  predicate PlainSegment(s: string) {
    s != "" && s != "." && s != ".." && forall i :: 0 <= i < |s| ==> s[i] != '/' && s[i] != '\\'
  }

  function SafePathSegment(value: string, name: string): (r: Result<string, PathError>)
    ensures r.Ok? <==> PlainSegment(Strip(value))
    ensures r.Ok? ==> r.value == Strip(value)
  {
    var segment := Strip(value);
    if segment == "" then Err(EmptySegment(name))
    else if '/' in segment || '\\' in segment then Err(NotSingleSegment(name))
    else if segment == "." || segment == ".." then Err(RelativeMarker(name))
    else Ok(segment)
  }

  function SafeFilename(value: string): (r: Result<string, PathError>)
  {
    var filename := Strip(PosixName(value));
    if filename == "" || filename == "." || filename == ".." then Err(InvalidFilename) else Ok(filename)
  }

  function KeySegment(value: string, name: string): (r: Result<string, PathError>)
    ensures r.Ok? ==> r.value == Strip(value) && r.value != "" && '/' !in r.value
  {
    var segment := Strip(value);
    if segment == "" then Err(EmptySegment(name))
    else if '/' in segment || '\\' in segment then Err(NotSingleSegment(name))
    else Ok(segment)
  }

  function RawDocumentKey(filename: string, tenant: string, source: string): Result<string, PathError> {
    var t :- KeySegment(tenant, "tenant_id");
    var s :- KeySegment(source, "source_id");
    var f :- KeySegment(filename, "filename");
    Ok(Join([t, s, f], "/"))
  }

  /** A document ready for ingest; its paths are below the input and the output directory. */
  datatype PreparedDocument = PreparedDocument(tenantId: string, sourceId: string, staged: Parts, output: Parts, rawKey: string)

  /** Staging on the API side; `digest` is the source id computed from the file. */
  function PrepareDocument(localPath: string, isFile: bool, tenant: string, source: Option<string>, digest: string)
    : Result<PreparedDocument, PathError>
  {
    if !isFile then Err(FileNotFound)
    else
      var t :- SafePathSegment(tenant, "tenant_id");
      var s :- SafePathSegment(if source.Some? && source.value != "" then source.value else digest, "source_id");
      var filename :- SafeFilename(PosixName(localPath));
      var key :- RawDocumentKey(filename, t, s);
      Ok(PreparedDocument(t, s, [t, s, filename], [t, s], key))
  }

  function SafeFilenameFromKey(key: string): Result<string, PathError> {
    var stripped := Strip(key);
    if stripped == "" || stripped[|stripped| - 1] == '/' then Err(InvalidFilename)
    else
      var filename := Strip(PosixName(stripped));
      if filename == "" || filename == "." || filename == ".." then Err(InvalidFilename)
      else if '/' in filename || '\\' in filename then Err(NotSingleSegment("raw_key"))
      else Ok(filename)
  }

  /** The worker's reading of a claimed job: where it downloads to and writes output. */
  function PreparedForJob(tenant: string, source: string, rawKey: string): Result<PreparedDocument, PathError> {
    var t :- SafePathSegment(tenant, "tenant_id");
    var s :- SafePathSegment(source, "source_id");
    var filename :- SafeFilenameFromKey(rawKey);
    Ok(PreparedDocument(t, s, [t, s, filename], [t, s], rawKey))
  }

  /** A directory joined with one more segment; `.` adds nothing. */
  function Child(dir: Parts, segment: string): Parts {
    if segment == "." then dir else dir + [segment]
  }

  function AsPosix(parts: Parts): string {
    if parts == [] then "." else Join(parts, "/")
  }

  /** The key of an output file, from its path below the output directory. */
  function OutputAssetKey(asset: Parts, tenant: string, source: string): Result<string, PathError> {
    var t :- KeySegment(tenant, "tenant_id");
    var s :- KeySegment(source, "source_id");
    var tree := Child(Child([], t), s);
    if tree <= asset then Ok(Join(["output", t, s, AsPosix(asset[|tree|..])], "/")) else Err(OutsideTree)
  }

  predicate ValidParts(parts: Parts) {
    forall p :: p in parts ==> p != "" && p != "." && '/' !in p
  }

  // ------------------------------------------------------------------ proofs

  lemma {:induction false} SplitSingle(s: string)
    requires '/' !in s
    ensures SplitSlash(s) == [s]
  {
    if s != "" {
      SplitSingle(s[1..]);
      assert [s[0]] + s[1..] == s;
    }
  }

  lemma {:induction false} SplitConcat(a: string, b: string)
    ensures SplitSlash(a + "/" + b) == SplitSlash(a) + SplitSlash(b)
  {
    var s := a + "/" + b;
    if a == "" {
      assert s[1..] == b;
    } else {
      SplitConcat(a[1..], b);
      SplitCons(a, s, a[1..] + "/" + b, SplitSlash(b));
    }
  }

  lemma SplitCons(a: string, s: string, tail: string, more: seq<string>)
    requires a != "" && s != "" && s[0] == a[0] && s[1..] == tail && SplitSlash(tail) == SplitSlash(a[1..]) + more
    ensures SplitSlash(s) == SplitSlash(a) + more
  {
    var rest := SplitSlash(a[1..]);
    assert (rest + more)[0] == rest[0] && (rest + more)[1..] == rest[1..] + more;
    ConcatAssoc([""], rest, more);
    ConcatAssoc([[a[0]] + rest[0]], rest[1..], more);
  }

  lemma {:induction false} SplitJoin(parts: seq<string>)
    requires parts != [] && forall i :: 0 <= i < |parts| ==> '/' !in parts[i]
    ensures SplitSlash(Join(parts, "/")) == parts
  {
    if |parts| == 1 {
      SplitSingle(parts[0]);
    } else {
      SplitJoin(parts[1..]);
      SplitSingle(parts[0]);
      SplitConcat(parts[0], Join(parts[1..], "/"));
      assert [parts[0]] + parts[1..] == parts;
    }
  }

  lemma RealPartsSnoc(pieces: seq<string>, last: string)
    requires last != "" && last != "."
    ensures RealParts(pieces + [last]) == RealParts(pieces) + [last]
  {
    assert (pieces + [last])[..|pieces + [last]| - 1] == pieces;
  }

  /** A key built from three segments gives its file name back. */
  lemma NameOfKey(t: string, s: string, f: string)
    requires t != "" && s != "" && f != "" && '/' !in t && '/' !in s && '/' !in f && f != "."
    requires !IsSpace(t[0]) && !IsSpace(f[|f| - 1])
    ensures var key := Join([t, s, f], "/");
            PosixName(key) == f && Strip(key) == key && key != "" && key[|key| - 1] == f[|f| - 1]
  {
    var key := Join([t, s, f], "/");
    assert [t, s, f][1..] == [s, f] && [s, f][1..] == [f];
    assert Join([s, f], "/") == s + "/" + f;
    assert key == t + "/" + (s + "/" + f);
    assert key[0] == t[0] && key[|key| - 1] == f[|f| - 1];
    StripFixed(key);
    SplitJoin([t, s, f]);
    RealPartsSnoc([t, s], f);
    assert [t, s] + [f] == [t, s, f];
  }

  /** The API and the worker agree on paths: for every document that the API stages, the
      worker computes from the stored tenant, source and key exactly the staged path and
      the output directory. */
  lemma WorkerFindsStagedPath(localPath: string, isFile: bool, tenant: string, source: Option<string>, digest: string)
    ensures var prepared := PrepareDocument(localPath, isFile, tenant, source, digest);
            prepared.Ok? ==>
              PreparedForJob(prepared.value.tenantId, prepared.value.sourceId, prepared.value.rawKey) == prepared
  {
    var prepared := PrepareDocument(localPath, isFile, tenant, source, digest);
    if prepared.Ok? {
      PreparedIff(localPath, isFile, tenant, source, digest);
      StripShape(tenant);
      StripShape(if source.None? || source == Some("") then digest else source.value);
      StripShape(PosixName(localPath));
      PreparedAgain(prepared.value.tenantId, prepared.value.sourceId, prepared.value.staged[2]);
    }
  }

  lemma PreparedAgain(t: string, s: string, f: string)
    requires PlainSegment(t) && PlainSegment(s) && PlainSegment(f) && Strip(t) == t && Strip(s) == s && Strip(f) == f
    requires !IsSpace(t[0]) && !IsSpace(f[|f| - 1])
    ensures PreparedForJob(t, s, t + "/" + s + "/" + f) == Ok(PreparedDocument(t, s, [t, s, f], [t, s], t + "/" + s + "/" + f))
  {
    var key := t + "/" + s + "/" + f;
    ThreeSegments(t, s, f);
    NameOfKey(t, s, f);
    WorkerStaysInside(t, s, key);
    assert key[|key| - 1..] == [f[|f| - 1]];
  }

  /** What staging prepares: exactly a file, a tenant, a source id (the given one unless it is empty,
      else the digest) and a file name that are plain segments are accepted, and the paths and the key
      are made of the three, stripped. */
  lemma PreparedIff(localPath: string, isFile: bool, tenant: string, source: Option<string>, digest: string)
    ensures var prepared := PrepareDocument(localPath, isFile, tenant, source, digest);
            var t, s, f := Strip(tenant), Strip(if source.None? || source == Some("") then digest else source.value),
                           Strip(PosixName(localPath));
            && (prepared.Ok? <==> isFile && PlainSegment(t) && PlainSegment(s) && PlainSegment(f))
            && (prepared.Ok? ==> prepared.value == PreparedDocument(t, s, [t, s, f], [t, s], t + "/" + s + "/" + f))
            && (!isFile ==> prepared == Err(FileNotFound))
  {
    var t, s, f := Strip(tenant), Strip(if source.None? || source == Some("") then digest else source.value),
                   Strip(PosixName(localPath));
    NameOfName(localPath);
    StripShape(tenant);
    StripShape(if source.None? || source == Some("") then digest else source.value);
    StripShape(PosixName(localPath));
    ThreeSegments(t, s, f);
    assert RawDocumentKey(f, t, s).Ok? ==> RawDocumentKey(f, t, s).value == Join([t, s, f], "/");
  }

  lemma ThreeSegments(t: string, s: string, f: string)
    ensures Join([t, s, f], "/") == t + "/" + s + "/" + f
  {
    assert [t, s, f][1..] == [s, f] && [s, f][1..] == [f];
    assert Join([s, f], "/") == s + "/" + f;
    assert t + "/" + (s + "/" + f) == t + "/" + s + "/" + f;
  }

  /** The name of a name is the name. */
  lemma NameOfName(path: string)
    ensures PosixName(PosixName(path)) == PosixName(path)
  {
    var name := PosixName(path);
    PosixNamePlain(path);
    SplitSingle(name);
    if name != "" {
      RealPartsSnoc([], name);
      assert [] + [name] == [name];
    }
  }

  lemma PosixNamePlain(path: string)
    ensures PosixName(path) == "" || (PosixName(path) != "." && '/' !in PosixName(path))
  {
  }

  /** Whatever a row holds, the worker writes below the directories of the row's own tenant and source,
      to a file with the key's own last name. It takes exactly the rows whose tenant and source and
      last name are plain segments once stripped, with a key that does not end in a slash. */
  lemma WorkerStaysInside(tenant: string, source: string, rawKey: string)
    ensures var job, key := PreparedForJob(tenant, source, rawKey), Strip(rawKey);
            var t, s, name := Strip(tenant), Strip(source), Strip(PosixName(key));
            && (job.Ok? <==> PlainSegment(t) && PlainSegment(s) && PlainSegment(name) && key[|key| - 1..] != "/")
            && (job.Ok? ==> job.value == PreparedDocument(t, s, [t, s, name], [t, s], rawKey))
  {
    var key := Strip(rawKey);
    if key != "" {
      assert key[|key| - 1..] == [key[|key| - 1]];
    }
  }

  /** Raw keys are injective: two documents with one key have the same tenant, source and
      file name, up to surrounding whitespace. */
  lemma RawKeysInjective(f: string, t: string, s: string, f': string, t': string, s': string)
    requires RawDocumentKey(f, t, s).Ok? && RawDocumentKey(f, t, s) == RawDocumentKey(f', t', s')
    ensures Strip(t) == Strip(t') && Strip(s) == Strip(s') && Strip(f) == Strip(f')
  {
    var a, b := [Strip(t), Strip(s), Strip(f)], [Strip(t'), Strip(s'), Strip(f')];
    SplitJoin(a);
    SplitJoin(b);
    assert a[0] == b[0] && a[1] == b[1] && a[2] == b[2];
  }

  lemma OutputKeyPieces(asset: Parts, t: string, s: string)
    requires ValidParts(asset) && OutputAssetKey(asset, t, s).Ok?
    ensures var tree := Child(Child([], Strip(t)), Strip(s));
            && tree <= asset
            && SplitSlash(OutputAssetKey(asset, t, s).value) ==
               ["output", Strip(t), Strip(s)] + (if asset[|tree|..] == [] then ["."] else asset[|tree|..])
  {
    var tree := Child(Child([], Strip(t)), Strip(s));
    var rest := asset[|tree|..];
    var posix := AsPosix(rest);
    var head := ["output", Strip(t), Strip(s)];
    assert forall i :: 0 <= i < |rest| ==> rest[i] in asset;
    if rest == [] {
      SplitSingle(".");
    } else {
      SplitJoin(rest);
    }
    JoinThen(head, posix);
    SplitJoin(head);
    SplitConcat(Join(head, "/"), posix);
    assert head + [posix] == ["output", Strip(t), Strip(s), posix];
  }

  lemma {:induction false} JoinThen(parts: seq<string>, last: string)
    requires parts != []
    ensures Join(parts + [last], "/") == Join(parts, "/") + "/" + last
  {
    if |parts| > 1 {
      assert (parts + [last])[1..] == parts[1..] + [last];
      JoinThen(parts[1..], last);
      assert parts[0] + "/" + (Join(parts[1..], "/") + "/" + last) == parts[0] + "/" + Join(parts[1..], "/") + "/" + last;
    } else {
      assert (parts + [last])[1..] == [last];
    }
  }

  /** Output keys are injective: files with one key belong to the same tenant and source
      and are the same file. */
  lemma OutputKeysInjective(asset: Parts, t: string, s: string, asset': Parts, t': string, s': string)
    requires ValidParts(asset) && ValidParts(asset')
    requires OutputAssetKey(asset, t, s).Ok? && OutputAssetKey(asset, t, s) == OutputAssetKey(asset', t', s')
    ensures Strip(t) == Strip(t') && Strip(s) == Strip(s') && asset == asset'
  {
    var rest := OutputKeyRest(asset, t, s);
    var rest' := OutputKeyRest(asset', t', s');
    SamePieces(Strip(t), Strip(s), rest, Strip(t'), Strip(s'), rest');
    NoDotParts(rest, rest');
  }

  lemma OutputKeyRest(asset: Parts, t: string, s: string) returns (rest: Parts)
    requires ValidParts(asset) && OutputAssetKey(asset, t, s).Ok?
    ensures asset == Child(Child([], Strip(t)), Strip(s)) + rest && forall p :: p in rest ==> p != "."
    ensures SplitSlash(OutputAssetKey(asset, t, s).value) == ["output", Strip(t), Strip(s)] + (if rest == [] then ["."] else rest)
  {
    OutputKeyPieces(asset, t, s);
    rest := asset[|Child(Child([], Strip(t)), Strip(s))|..];
    assert forall p :: p in rest ==> p in asset;
  }

  lemma SamePieces(t: string, s: string, rest: Parts, t': string, s': string, rest': Parts)
    requires ["output", t, s] + (if rest == [] then ["."] else rest) == ["output", t', s'] + (if rest' == [] then ["."] else rest')
    ensures t == t' && s == s' && (if rest == [] then ["."] else rest) == (if rest' == [] then ["."] else rest')
  {
    var x, y := if rest == [] then ["."] else rest, if rest' == [] then ["."] else rest';
    var p, q := ["output", t, s] + x, ["output", t', s'] + y;
    assert p[1] == t && q[1] == t' && p[2] == s && q[2] == s';
    assert x == p[3..] == q[3..] == y;
  }

  lemma NoDotParts(rest: Parts, rest': Parts)
    requires (forall p :: p in rest ==> p != ".") && (forall p :: p in rest' ==> p != ".")
    requires (if rest == [] then ["."] else rest) == (if rest' == [] then ["."] else rest')
    ensures rest == rest'
  {
    assert rest != [] ==> rest[0] in rest;
    assert rest' != [] ==> rest'[0] in rest';
  }
}
