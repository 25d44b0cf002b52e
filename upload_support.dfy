/** The per-payload part of Helm uploads, shared by the upload handlers: file-name
    classification, metadata validation, storage-path derivation and the permission
    check, stated as pure functions over the handler's collaborators. */
module UploadSupport {
  import opened Helm
  import opened LinkedMaps
  import opened ContentFacet

  /** The collaborators the handler calls and whose code is not part of this model. */
  datatype Collaborators = Collaborators(
    /** AssetKind.getAssetKindByFileName */
    classify: string -> AssetKind,
    /** AssetKind.getExtension */
    extension: AssetKind -> string,
    /** HelmAttributeParser.getAttributes, reading the staged copy of the payload */
    parse: (AssetKind, Bytes) -> HelmAttributes,
    /** ensurePermitted(repositoryName, formatName, path, no variables): true when it does not throw */
    permitted: (string, string, string) -> bool)

  /** A repository: its name and its Helm content facet. */
  class Repository {
    const name: string
    const facet: HelmContentFacet

    constructor (name: string, facet: HelmContentFacet)
      ensures this.name == name && this.facet == facet
    {
      this.name := name;
      this.facet := facet;
    }
  }

  /** One uploaded part: its (possibly null) file name and its bytes. */
  datatype PartPayload = PartPayload(name: Option<string>, bytes: Bytes)

  /** One asset of a component upload, with its form fields, which Helm ignores. */
  datatype AssetUpload = AssetUpload(payload: PartPayload, fields: map<string, string>)

  /** A component upload: its assets in submission order, and its form fields. */
  datatype ComponentUpload = ComponentUpload(assetUploads: seq<AssetUpload>, fields: map<string, string>)

  /** What a component upload answers: the contents and the asset paths, index-aligned. */
  datatype UploadResponse = UploadResponse(contents: seq<Content>, assetPaths: seq<string>)

  /** The upload definition this format advertises. */
  datatype UploadDefinition = UploadDefinition(format: string, multipleUpload: bool)

  const UnsupportedExtensionMessage: string := "Unsupported extension. Extension must be .tgz or .tgz.prov"
  const MissingNameMessage: string := "Metadata is missing the name attribute"
  const MissingVersionMessage: string := "Metadata is missing the version attribute"

  /** The exceptions an upload can end with. */
  datatype UploadError =
    | UnsupportedExtension          // IllegalArgumentException
    | MissingName                   // ValidationErrorsException
    | MissingVersion                // ValidationErrorsException
    | PermissionDenied(path: string) // thrown by ensurePermitted
    | InvalidPath(path: string)      // Paths.get rejects the path (an InvalidPathException)
    | NoFileName(path: string)       // the path has no file name (a NullPointerException)
  {
    /** The message the handler itself gives; the other two come from elsewhere. */
    function Message(): (m: Option<string>)
      ensures m.Some? <==> (UnsupportedExtension? || MissingName? || MissingVersion?)
      ensures UnsupportedExtension? ==> m == Some(UnsupportedExtensionMessage)
      ensures MissingName? ==> m == Some(MissingNameMessage)
      ensures MissingVersion? ==> m == Some(MissingVersionMessage)
    {
      match this
      case UnsupportedExtension => Some(UnsupportedExtensionMessage)
      case MissingName => Some(MissingNameMessage)
      case MissingVersion => Some(MissingVersionMessage)
      case _ => None
    }
  }

  /** The name a payload is classified by: its own, or the empty string when it has none. */
  function FileNameOf(p: PartPayload): (r: string)
    ensures p.name.None? ==> r == ""
    ensures p.name.Some? ==> r == p.name.value
  {
    match p.name
    case Some(n) => n
    case None => ""
  }

  /** The storage path of a chart or provenance file: "%s-%s%s" of name, version and extension. */
  function DerivePath(name: string, version: string, extension: string): (r: string)
    ensures |r| == |name| + 1 + |version| + |extension|
    ensures r[..|name|] == name && r[|name|] == '-'
    ensures r[|name| + 1..|name| + 1 + |version|] == version
    ensures r[|name| + 1 + |version|..] == extension
  {
    name + "-" + version + extension
  }

  /** For a given chart name and kind, the version is recoverable from the path. */
  lemma DerivePathDeterminesVersion(name: string, v1: string, v2: string, extension: string)
    requires DerivePath(name, v1, extension) == DerivePath(name, v2, extension)
    ensures v1 == v2
  {
    var p := DerivePath(name, v1, extension);
    assert |v1| == |v2|;
    var start := |name| + 1;
    assert v1 == p[start..start + |v1|];
    assert v2 == DerivePath(name, v2, extension)[start..start + |v2|];
  }

  /** A chart and its provenance file, which have different extensions, never share a path. */
  lemma DerivePathSeparatesKinds(name: string, version: string, e1: string, e2: string)
    requires e1 != e2
    ensures DerivePath(name, version, e1) != DerivePath(name, version, e2)
  {
    var prefix := name + "-" + version;
    assert DerivePath(name, version, e1)[|prefix|..] == e1;
    assert DerivePath(name, version, e2)[|prefix|..] == e2;
  }

  /** An accepted chart package and an accepted provenance file with the same name
      and version are stored under different paths, as long as the two kinds'
      extensions differ. */
  lemma AcceptedKindsNeverShareAPath(c: Collaborators, repositoryName: string, p1: PartPayload, p2: PartPayload)
    requires c.extension(HelmPackage) != c.extension(HelmProvenance)
    requires Validate(c, repositoryName, p1).Success? && Validate(c, repositoryName, p2).Success?
    requires Validate(c, repositoryName, p1).value.kind != Validate(c, repositoryName, p2).value.kind
    requires var k1 := c.classify(FileNameOf(p1));
             var k2 := c.classify(FileNameOf(p2));
             c.parse(k1, p1.bytes) == c.parse(k2, p2.bytes)
    ensures Validate(c, repositoryName, p1).value.path != Validate(c, repositoryName, p2).value.path
  {
    var k1 := c.classify(FileNameOf(p1));
    var k2 := c.classify(FileNameOf(p2));
    var attrs := c.parse(k1, p1.bytes);
    assert Validate(c, repositoryName, p1).value.kind == k1;
    assert Validate(c, repositoryName, p2).value.kind == k2;
    assert c.extension(k1) != c.extension(k2);
    DerivePathSeparatesKinds(attrs.name.value, attrs.version.value, c.extension(k1), c.extension(k2));
  }

  /** Different charts can derive the same path, because names and versions may contain '-'. */
  lemma DistinctChartsMayShareAPath()
    ensures DerivePath("a-b", "1", ".tgz") == DerivePath("a", "b-1", ".tgz")
  {
  }

  /** A payload that passed every check: its kind and the path it is stored under. */
  datatype Ingestion = Ingestion(kind: AssetKind, path: string)

  /** processPayload up to the store call: classify, reject anything but a chart or
      provenance file, parse, reject a blank name and then a blank version, derive
      the path and check permission on it. */
  function Validate(c: Collaborators, repositoryName: string, p: PartPayload): (r: Result<Ingestion, UploadError>)
    ensures var kind := c.classify(FileNameOf(p));
            var attrs := c.parse(kind, p.bytes);
            && (r == Failure(UnsupportedExtension) <==> !kind.IsChartFile())
            && (r == Failure(MissingName) <==> kind.IsChartFile() && IsBlank(attrs.name))
            && (r == Failure(MissingVersion) <==> kind.IsChartFile() && !IsBlank(attrs.name) && IsBlank(attrs.version))
            && (r.Success? || r.error.PermissionDenied? <==>
                  kind.IsChartFile() && !IsBlank(attrs.name) && !IsBlank(attrs.version))
            && (r.Success? || r.error.PermissionDenied? ==>
                  var path := DerivePath(attrs.name.value, attrs.version.value, c.extension(kind));
                  if c.permitted(repositoryName, FormatName, path) then r == Success(Ingestion(kind, path))
                  else r == Failure(PermissionDenied(path)))
            && (r.Failure? ==> !r.error.NoFileName? && !r.error.InvalidPath?)
  {
    var kind := c.classify(FileNameOf(p));
    if !kind.IsChartFile() then Failure(UnsupportedExtension)
    else
      var attrs := c.parse(kind, p.bytes);
      if IsBlank(attrs.name) then Failure(MissingName)
      else if IsBlank(attrs.version) then Failure(MissingVersion)
      else
        var path := DerivePath(attrs.name.value, attrs.version.value, c.extension(kind));
        if !c.permitted(repositoryName, FormatName, path) then Failure(PermissionDenied(path))
        else Success(Ingestion(kind, path))
  }

  /** The state a batch of uploads works on: the facet's asset table, the response
      map and the paths putIndex has been called with. */
  datatype Batch = Batch(assets: AssetTable, response: OrderedMap<string, Content>, indexed: seq<string>)

  /** Every response entry is the current download of the asset at its path. */
  ghost predicate Consistent(b: Batch) {
    && b.response.Valid()
    && forall k :: k in b.response.values ==> k in b.assets && b.response.values[k] == Download(k, b.assets[k])
  }

  /** processPayload as a step of the batch: a rejected payload changes nothing; an
      accepted one is stored with putIndex and its download is put in the response. */
  function Ingest(c: Collaborators, rewrite: Bytes -> Bytes, repositoryName: string, b: Batch, p: PartPayload)
    : (r: Result<Batch, UploadError>)
    requires b.response.Valid()
    ensures Validate(c, repositoryName, p).Failure? ==> r == Failure(Validate(c, repositoryName, p).error)
    ensures Validate(c, repositoryName, p).Success? ==>
              var v := Validate(c, repositoryName, p).value;
              && r.Success?
              && r.value.assets == Attach(b.assets, v.path, v.kind.Name(), None, rewrite(p.bytes))
              && r.value.response == b.response.Put(v.path, Download(v.path, r.value.assets[v.path]))
              && r.value.indexed == b.indexed + [v.path]
    ensures r.Success? ==> r.value.response.Valid()
    ensures r.Success? && Consistent(b) ==> Consistent(r.value)
  {
    match Validate(c, repositoryName, p)
    case Failure(e) => Failure(e)
    case Success(v) =>
      var assets := Attach(b.assets, v.path, v.kind.Name(), None, rewrite(p.bytes));
      var content := Download(v.path, assets[v.path]);
      Success(Batch(assets, b.response.Put(v.path, content), b.indexed + [v.path]))
  }

  /** The payloads of a component upload, in submission order. */
  function PayloadsOf(assetUploads: seq<AssetUpload>): (r: seq<PartPayload>)
    ensures |r| == |assetUploads|
    ensures forall i :: 0 <= i < |r| ==> r[i] == assetUploads[i].payload
  {
    seq(|assetUploads|, i requires 0 <= i < |assetUploads| => assetUploads[i].payload)
  }

  /** new UploadResponse(map.values(), new ArrayList<>(map.keySet())): two index-aligned
      lists in key order that together hold exactly the map's entries. */
  function ResponseOf(m: OrderedMap<string, Content>): (r: UploadResponse)
    requires m.Valid()
    ensures r.assetPaths == m.keys
    ensures |r.contents| == |r.assetPaths|
    ensures forall i :: 0 <= i < |r.contents| ==> r.assetPaths[i] in m.values && r.contents[i] == m.values[r.assetPaths[i]]
    ensures forall k :: k in m.values ==> exists i :: 0 <= i < |r.assetPaths| && r.assetPaths[i] == k && r.contents[i] == m.values[k]
  {
    UploadResponse(seq(|m.keys|, i requires 0 <= i < |m.keys| => m.values[m.keys[i]]), m.keys)
  }

  /** The path with its trailing '/' characters removed. */
  function TrimTrailingSlashes(s: string): (r: string)
    ensures |r| <= |s| && r == s[..|r|]
    ensures r == [] || r[|r| - 1] != '/'
    ensures forall i :: |r| <= i < |s| ==> s[i] == '/'
  {
    if s != [] && s[|s| - 1] == '/' then TrimTrailingSlashes(s[..|s| - 1]) else s
  }

  /** What follows the last '/' of a path. */
  function LastSegment(s: string): (r: string)
    ensures |r| <= |s| && r == s[|s| - |r|..]
    ensures '/' !in r
    ensures |r| < |s| ==> s[|s| - |r| - 1] == '/'
  {
    if s == [] || s[|s| - 1] == '/' then [] else LastSegment(s[..|s| - 1]) + [s[|s| - 1]]
  }

  /** Paths.get on a Unix file system accepts a path exactly when it has no NUL
      character (every character is encodable in the UTF-8 platform charset). */
  predicate IsUnixPath(path: string) {
    '\0' !in path
  }

  /** getFileName() of a path Paths.get accepted, on a Unix file system: the last
      name element, empty for the empty path, and null for a root path made of '/'
      only. */
  function PathFileName(path: string): (r: Option<string>)
    ensures r.None? <==> path != [] && forall i :: 0 <= i < |path| ==> path[i] == '/'
    ensures r.Some? ==> '/' !in r.value
    ensures r.Some? ==>
              var t := TrimTrailingSlashes(path);
              && t == path[..|t|] && (forall i :: |t| <= i < |path| ==> path[i] == '/')
              && |r.value| <= |t| && t[|t| - |r.value|..] == r.value
              && (|r.value| < |t| ==> t[|t| - |r.value| - 1] == '/')
  {
    var t := TrimTrailingSlashes(path);
    if t == [] && path != [] then None else Some(LastSegment(t))
  }

  /** The asset table after a file is put at a path, and the download put returns. */
  datatype Placed = Placed(assets: AssetTable, content: Content)

  /** doPut on the asset table: a path Paths.get rejects fails, and so does a path
      without a file name, and neither stores anything; otherwise the content is stored with putIndex under the kind its file name
      classifies as, whatever that kind is, so the stored blob is the rewritten one. */
  function PlaceFile(c: Collaborators, rewrite: Bytes -> Bytes, assets: AssetTable, content: Bytes, path: string)
    : (r: Result<Placed, UploadError>)
    ensures r.Failure? <==> !IsUnixPath(path) || PathFileName(path).None?
    ensures !IsUnixPath(path) ==> r == Failure(InvalidPath(path))
    ensures IsUnixPath(path) && PathFileName(path).None? ==> r == Failure(NoFileName(path))
    ensures r.Success? ==>
              var kind := c.classify(PathFileName(path).value);
              && r.value.assets == Attach(assets, path, kind.Name(), None, rewrite(content))
              && Lookup(r.value.assets, path) == Some(r.value.content)
              && r.value.content.blob == rewrite(content)
  {
    if !IsUnixPath(path) then Failure(InvalidPath(path))
    else
    match PathFileName(path)
    case None => Failure(NoFileName(path))
    case Some(fileName) =>
      var updated := Attach(assets, path, c.classify(fileName).Name(), None, rewrite(content));
      Success(Placed(updated, Download(path, updated[path])))
  }
}
