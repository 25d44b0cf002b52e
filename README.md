# Helm upload ingestion

A Dafny model of how the Helm format of Nexus Repository ingests uploads. These are
the upload handler of the `content` package and the Helm content facet it stores
into.

The modelled pieces are as follows.

- **A component upload.** Each uploaded part is processed in submission order by
  `processPayload`:
  - its file name (the empty string when it has none) is classified into an asset
    kind, and anything other than a chart package or a provenance file is rejected;
  - the chart metadata is parsed, and a blank name is rejected, then a blank version;
  - the storage path `name-version<extension>` is derived and write permission on it
    is checked;
  - the part is stored with the facet's `putIndex`, and the resulting download is
    put in a `LinkedHashMap` keyed by path.

  The first failure fails the whole upload. Otherwise the map is split into
  index-aligned lists of paths and contents.
- **A single file** put at a given path (`handle(repository, file, path)` /
  `doPut`). Permission is checked on the path, the file name is classified, and the
  file is stored with `putIndex`.
- **The content facet's asset table.** This covers `getAsset`, `putIndex` (get or
  create the asset at the path, then attach the URL-rewritten blob),
  `putComponent` (bind a newly created asset to a component named by the path,
  attach the blob unrewritten, record the parsed attributes under `helm`) and
  `delete`.
- **The lazily computed upload definition.**

The collaborators whose code is not part of this model are function-valued
parameters with no internals:

- the file-name classifier;
- the per-kind extension;
- the attribute parser;
- the permission check;
- the index URL rewriter.

Layout:

- `helm.dfy`: shared values.
  - asset kinds and their tag names;
  - nullable chart attributes;
  - Java's `Character.isWhitespace` and `StringUtils.isBlank`.
- `linked_map.dfy`: `LinkedHashMap`.
  - its value, an `OrderedMap` of keys in first-insertion order plus a map;
  - a `LinkedMap` class updated in place;
  - `FirstOccurrences`, the reference definition of insertion order.
- `content_facet.dfy`: the asset table as pure functions (`Attach`,
  `WithAttribute`, `Lookup`), and the `HelmContentFacet` class whose methods update
  it.
- `upload_support.dfy`: `HelmUploadHandlerSupport` as pure specifications.
  - `Validate`, the checks of one payload, in order;
  - `Ingest`, one payload as a step on the (asset table, response map) state;
  - `DerivePath`, `PathFileName` and `PlaceFile` (doPut);
  - `ResponseOf`, the response split.
- `upload_handler.dfy`: the batch.
  - `IngestAll`, Ingest over a batch, stopping at the first failure;
  - the lemmas about batches;
  - the `HelmUploadHandler` class, whose methods are proved against `Ingest`,
    `IngestAll`, `ResponseOf` and `PlaceFile`.

Three behaviours of the code a reader might not expect:

- **`putIndex` rewrites every kind.** It passes the content through the index URL
  rewriter whatever the kind, not only for index files. Chart packages and
  provenance files uploaded through the handler are therefore stored rewritten, and
  no component is created for them (`processPayload` calls `putIndex`, never
  `putComponent`).
- **Single-file puts rewrite too.** The single-file put stores through `putIndex`
  as well, so it also rewrites every kind.
- **A failed batch returns nothing.** It answers with no response map, only the
  error. The stores made before the failure remain.

## Model

| member | source | states |
|---|---|---|
| LinkedMaps.OrderedMap.Put | nexus-repository-helm/src/main/java/org/sonatype/repository/helm/internal/content/HelmUploadHandlerSupport.java:155 | the key maps to the new value; every other key keeps its value; the old keys are a prefix of the new ones; a new key is added at the end and an existing one keeps its position; the map stays well formed |
| LinkedMaps.FirstOccurrences | nexus-repository-helm/src/main/java/org/sonatype/repository/helm/internal/content/HelmUploadHandler.java:62 | reference for LinkedHashMap key order: no repetitions, exactly the elements of the insertion sequence, never longer than it |
| LinkedMaps.FirstOccurrencesKeepsOrder | nexus-repository-helm/src/main/java/org/sonatype/repository/helm/internal/content/HelmUploadHandler.java:62 | an element first inserted earlier comes before one first inserted later |
| LinkedMaps.PutKeepsFirstOccurrences | nexus-repository-helm/src/main/java/org/sonatype/repository/helm/internal/content/HelmUploadHandlerSupport.java:155 | putting keys one by one leaves them in first-insertion order |
| LinkedMaps.LinkedMap.constructor | nexus-repository-helm/src/main/java/org/sonatype/repository/helm/internal/content/HelmUploadHandler.java:62 | a new LinkedHashMap is empty |
| LinkedMaps.LinkedMap.Put | nexus-repository-helm/src/main/java/org/sonatype/repository/helm/internal/content/HelmUploadHandlerSupport.java:155 | the in-place put changes the map exactly as OrderedMap.Put does |
| ContentFacet.Attach | nexus-repository-helm/src/main/java/org/sonatype/repository/helm/internal/content/recipe/HelmContentFacetImpl.java:76-80 | get-or-create then attach: the path is present and holds the blob; an existing asset keeps its kind, component and attributes; a new one gets the given kind and component; every other path is unchanged |
| ContentFacet.WithAttribute | nexus-repository-helm/src/main/java/org/sonatype/repository/helm/internal/content/recipe/HelmContentFacetImpl.java:101 | only the attribute under the key changes, on that asset only |
| ContentFacet.Lookup | nexus-repository-helm/src/main/java/org/sonatype/repository/helm/internal/content/recipe/HelmContentFacetImpl.java:66-67 | empty exactly when no asset is at the path; otherwise that asset's download |
| ContentFacet.AttachThenLookup | nexus-repository-helm/src/main/java/org/sonatype/repository/helm/internal/content/recipe/HelmContentFacetImpl.java:76-81 | after attaching, the path downloads the attached blob, under the old kind if the asset existed |
| ContentFacet.AttachLeavesOtherPaths | nexus-repository-helm/src/main/java/org/sonatype/repository/helm/internal/content/recipe/HelmContentFacetImpl.java:76-80 | attaching at one path changes no other path's download |
| ContentFacet.HelmContentFacet.GetAsset | nexus-repository-helm/src/main/java/org/sonatype/repository/helm/internal/content/recipe/HelmContentFacetImpl.java:65-68 | empty exactly when no asset is at the path; otherwise its download |
| ContentFacet.HelmContentFacet.PutIndex | nexus-repository-helm/src/main/java/org/sonatype/repository/helm/internal/content/recipe/HelmContentFacetImpl.java:70-84 | for every kind, the rewritten blob (not the original) is attached at the path with the kind's name; components are unchanged; the call is recorded; the result is the asset's download |
| ContentFacet.HelmContentFacet.PutComponent | nexus-repository-helm/src/main/java/org/sonatype/repository/helm/internal/content/recipe/HelmContentFacetImpl.java:86-104 | a component named by the path, with the parsed version, is got or created; the original blob is attached unrewritten; the parsed attributes are recorded under "helm" |
| ContentFacet.HelmContentFacet.Delete | nexus-repository-helm/src/main/java/org/sonatype/repository/helm/internal/content/recipe/HelmContentFacetImpl.java:106-109 | true exactly when an asset was at the path; that asset, and only it, is removed; afterwards getAsset finds nothing there and every other path looks as before |
| ContentFacet.HelmContentFacet.constructor | nexus-repository-helm/src/main/java/org/sonatype/repository/helm/internal/content/recipe/HelmContentFacetImpl.java:55-63 | a facet holds the given attribute parser and index rewriter, and starts with no assets, no components and no putIndex calls |
| UploadSupport.UploadError.Message | nexus-repository-helm/src/main/java/org/sonatype/repository/helm/internal/content/HelmUploadHandlerSupport.java:131-147 | the extension, name and version checks each carry their own message text, as thrown at lines 132, 142 and 146; the permission and missing-file-name errors carry none of the handler's |
| UploadSupport.FileNameOf | nexus-repository-helm/src/main/java/org/sonatype/repository/helm/internal/content/HelmUploadHandlerSupport.java:128 | a part with no name is classified as the empty file name |
| UploadSupport.DerivePath | nexus-repository-helm/src/main/java/org/sonatype/repository/helm/internal/content/HelmUploadHandlerSupport.java:149 | the path is the name, a '-', the version and the extension, in that order and nothing else |
| UploadSupport.DerivePathDeterminesVersion | nexus-repository-helm/src/main/java/org/sonatype/repository/helm/internal/content/HelmUploadHandlerSupport.java:149 | for one chart name and extension, the path determines the version |
| UploadSupport.DerivePathSeparatesKinds | nexus-repository-helm/src/main/java/org/sonatype/repository/helm/internal/content/HelmUploadHandlerSupport.java:137-149 | the same name and version with two different extensions never give the same path |
| UploadSupport.AcceptedKindsNeverShareAPath | nexus-repository-helm/src/main/java/org/sonatype/repository/helm/internal/content/HelmUploadHandlerSupport.java:137-149 | an accepted package and an accepted provenance file with the same parsed name and version get different paths, when the two kinds' extensions differ |
| UploadSupport.DistinctChartsMayShareAPath | nexus-repository-helm/src/main/java/org/sonatype/repository/helm/internal/content/HelmUploadHandlerSupport.java:149 | different name/version pairs can derive the same path ("a-b","1" and "a","b-1") |
| UploadSupport.Validate | nexus-repository-helm/src/main/java/org/sonatype/repository/helm/internal/content/HelmUploadHandlerSupport.java:128-151 | each error, in order, exactly when its condition holds: unsupported extension unless package or provenance; then a blank name; then a blank version; otherwise permission on name-version+extension is checked, and success carries exactly that path |
| UploadSupport.Ingest | nexus-repository-helm/src/main/java/org/sonatype/repository/helm/internal/content/HelmUploadHandlerSupport.java:122-157 | a rejected payload fails with Validate's error and changes nothing; an accepted one attaches the rewritten bytes at its path, puts that download in the response, and records one putIndex call; every response entry stays the current download of its asset |
| UploadSupport.PayloadsOf | nexus-repository-helm/src/main/java/org/sonatype/repository/helm/internal/content/HelmUploadHandlerSupport.java:84-86 | the payloads of the asset uploads, one each, in order |
| UploadSupport.ResponseOf | nexus-repository-helm/src/main/java/org/sonatype/repository/helm/internal/content/HelmUploadHandlerSupport.java:88-90 | asset paths are the map's keys in order; contents are aligned with them and hold each key's value; every entry appears |
| UploadSupport.PathFileName | nexus-repository-helm/src/main/java/org/sonatype/repository/helm/internal/content/HelmUploadHandlerSupport.java:115 | getFileName() of a path Paths.get accepted: null exactly for a non-empty path of '/' only; otherwise the last '/'-free segment after any trailing '/' characters |
| UploadSupport.PlaceFile | nexus-repository-helm/src/main/java/org/sonatype/repository/helm/internal/content/HelmUploadHandlerSupport.java:111-120 | fails exactly when Paths.get rejects the path (it holds a NUL), with an invalid-path error, or when the path has no file name; otherwise stores the rewritten content at the path under the kind its file name classifies as, and returns that download |
| UploadSupport.Repository.constructor | nexus-repository-helm/src/main/java/org/sonatype/repository/helm/internal/content/HelmUploadHandlerSupport.java:151-153 | a repository holds its name, on which permission is checked, and its Helm content facet, into which payloads are stored |
| UploadHandler.IngestAll | nexus-repository-helm/src/main/java/org/sonatype/repository/helm/internal/content/HelmUploadHandler.java:62-66 | the batch as successive Ingest steps; the response map stays well formed |
| UploadHandler.FailureIsFinal | nexus-repository-helm/src/main/java/org/sonatype/repository/helm/internal/content/HelmUploadHandler.java:63-65 | once a prefix has failed, the payloads after it change nothing |
| UploadHandler.RunSucceedsIffAllAccepted | nexus-repository-helm/src/main/java/org/sonatype/repository/helm/internal/content/HelmUploadHandler.java:63-65 | a batch succeeds exactly when every payload passes its checks |
| UploadHandler.FirstRejected | nexus-repository-helm/src/main/java/org/sonatype/repository/helm/internal/content/HelmUploadHandler.java:63-65 | the first payload that fails its checks: every earlier one passes, and it is the batch length when none fails |
| UploadHandler.RunStopsAtFirstRejection | nexus-repository-helm/src/main/java/org/sonatype/repository/helm/internal/content/HelmUploadHandler.java:63-65 | a batch fails exactly when some payload is rejected, with the first rejected payload's error, in the state the payloads before it left (their stores remain) |
| UploadHandler.RunKeysInSubmissionOrder | nexus-repository-helm/src/main/java/org/sonatype/repository/helm/internal/content/HelmUploadHandler.java:62-64 | a successful batch calls putIndex once per payload, in order; its keys are the derived paths in first-insertion order |
| UploadHandler.RunKeysAreDerivedPaths | nexus-repository-helm/src/main/java/org/sonatype/repository/helm/internal/content/HelmUploadHandler.java:62-66 | a successful batch gains at most one key per payload, and every key is a derived path |
| UploadHandler.RunLastWriteWins | nexus-repository-helm/src/main/java/org/sonatype/repository/helm/internal/content/HelmUploadHandler.java:62-64 | for each path, the asset and the response hold the rewritten bytes of the last payload deriving it; other paths are untouched; every entry is its asset's current download |
| UploadHandler.SubmissionOrderKept | nexus-repository-helm/src/main/java/org/sonatype/repository/helm/internal/content/HelmUploadHandler.java:62 | from an empty response, a path first derived earlier is listed before one first derived later |
| UploadHandler.HelmUploadHandler.constructor | nexus-repository-helm/src/main/java/org/sonatype/repository/helm/internal/content/HelmUploadHandler.java:45-53 | a handler holds its collaborators and starts with no definition computed |
| UploadHandler.HelmUploadHandler.GetDefinition | nexus-repository-helm/src/main/java/org/sonatype/repository/helm/internal/content/HelmUploadHandlerSupport.java:159-165 | computed on the first call only; later calls return the same value |
| UploadHandler.HelmUploadHandler.ProcessPayload | nexus-repository-helm/src/main/java/org/sonatype/repository/helm/internal/content/HelmUploadHandlerSupport.java:122-157 | the store and the response map change exactly as Ingest says; a rejected payload leaves both as they were |
| UploadHandler.HelmUploadHandler.GetResponseContents | nexus-repository-helm/src/main/java/org/sonatype/repository/helm/internal/content/HelmUploadHandler.java:55-67 | the loop over a fresh map reaches IngestAll's state: its error on failure, otherwise its response |
| UploadHandler.HelmUploadHandler.Handle | nexus-repository-helm/src/main/java/org/sonatype/repository/helm/internal/content/HelmUploadHandlerSupport.java:81-91 | the payloads in order go through IngestAll; on success the answer is ResponseOf the map |
| UploadHandler.HelmUploadHandler.HandleFile | nexus-repository-helm/src/main/java/org/sonatype/repository/helm/internal/content/HelmUploadHandlerSupport.java:98-109 | a denied path fails before anything is stored; otherwise doPut's result |
| UploadHandler.HelmUploadHandler.DoPut | nexus-repository-helm/src/main/java/org/sonatype/repository/helm/internal/content/HelmUploadHandlerSupport.java:111-120 | the store changes exactly as PlaceFile says |

## Left out

- Temp blobs, MD5/SHA1 hashing, streams, file sizes and content-type probing, and the closing of resources: the model keeps only the bytes.
- The collaborators' internals: the file-name classifier, the extension table, the tar.gz and provenance parser, the index YAML rewriter, and permission checking with its variable resolver. Each is an uninterpreted function.
- The parser failing on a malformed archive, and storage errors from the content store: the collaborators are modelled as total.
- Concurrency and transactions; the orient-package handler is not part of this model.
- The upload definition's field lists and UI metadata: `GetDefinition` returns only the format name and the multiple-upload flag.
- UploadHandler.HelmUploadHandler.GetResponseContents: the response on failure is dropped, as in the code; the stores already made remain.
- ContentFacet.Attach: getOrCreate on an existing path reuses that asset without changing its kind or component.
- ContentFacet.HelmContentFacet.PutComponent: binds the asset to the path-named component only when the asset is created; an asset already at the path keeps the component it had.
- ContentFacet.HelmContentFacet.Delete: the asset's own delete result is taken to be true.
- UploadSupport.PathFileName: Unix path syntax only, with a UTF-8 platform charset; Paths.get's rejection of a character the platform charset cannot encode is not modelled.
- UploadSupport.PathFileName: a path of '/' characters only has no file name. The code then dereferences null, which the model turns into a `NoFileName` error.
- UploadSupport.Ingest: `putIndex` is handed the payload cast to `Content` (HelmUploadHandlerSupport.java line 153); the model assumes that cast succeeds and stores the payload's bytes, and does not model a ClassCastException.
- UploadSupport.PlaceFile: `putIndex` is handed a new `StreamPayload` cast to `Content` (HelmUploadHandlerSupport.java lines 117-119); the model assumes that cast succeeds and stores the file's bytes, and does not model a ClassCastException, which would fail every single-file put before anything is stored if `StreamPayload` is not a `Content`.
- Helm.IsWhitespace: follows `Character.isWhitespace` as of Java 9; on Java 8 U+180E is also whitespace, so a name made only of it is blank there but not here.
- Helm.AssetKind: only the three constants the upload code distinguishes (index, package, provenance).
