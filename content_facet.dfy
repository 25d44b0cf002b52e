/** The Helm content facet: the repository's asset table, keyed by path, and its
    component records, with the put, get and delete operations the upload
    handler uses. */
module ContentFacet {
  import opened Helm

  /** A component record: its name and (possibly null) version. */
  datatype Component = Component(name: string, version: Option<string>)

  /** A stored asset: its kind tag, the blob attached to it, the component it
      belongs to (if any) and its format attributes. */
  datatype Asset = Asset(
    kind: string,
    blob: Bytes,
    component: Option<Component>,
    attributes: map<string, HelmAttributes>)

  /** What downloading an asset yields: the asset's path and kind, and its blob. */
  datatype Content = Content(path: string, kind: string, blob: Bytes)

  /** The asset table: one asset per path. */
  type AssetTable = map<string, Asset>

  function Download(path: string, a: Asset): (c: Content)
    ensures c.path == path && c.kind == a.kind && c.blob == a.blob
  {
    Content(path, a.kind, a.blob)
  }

  /** The fluent chain path(p).kind(k).component(c).getOrCreate().attach(blob): an
      asset already at the path is reused as it is and only its blob is replaced;
      otherwise a new asset with the given kind and component is created. */
  function Attach(assets: AssetTable, path: string, kind: string, component: Option<Component>, blob: Bytes)
    : (r: AssetTable)
    ensures r.Keys == assets.Keys + {path}
    ensures r[path].blob == blob
    ensures path in assets ==>
              r[path].kind == assets[path].kind
              && r[path].component == assets[path].component
              && r[path].attributes == assets[path].attributes
    ensures path !in assets ==> r[path].kind == kind && r[path].component == component && r[path].attributes == map[]
    ensures forall p :: p in assets && p != path ==> r[p] == assets[p]
  {
    var asset := if path in assets then assets[path].(blob := blob) else Asset(kind, blob, component, map[]);
    assets[path := asset]
  }

  /** withAttribute(key, value) on the asset at the path. */
  function WithAttribute(assets: AssetTable, path: string, key: string, attrs: HelmAttributes): (r: AssetTable)
    requires path in assets
    ensures r.Keys == assets.Keys
    ensures r[path].attributes == assets[path].attributes[key := attrs]
    ensures r[path].kind == assets[path].kind && r[path].blob == assets[path].blob
    ensures r[path].component == assets[path].component
    ensures forall p :: p in assets && p != path ==> r[p] == assets[p]
  {
    assets[path := assets[path].(attributes := assets[path].attributes[key := attrs])]
  }

  /** find() on the asset at the path, mapped to its download. */
  function Lookup(assets: AssetTable, path: string): (r: Option<Content>)
    ensures r.None? <==> path !in assets
    ensures r.Some? ==> r.value.path == path && r.value.kind == assets[path].kind && r.value.blob == assets[path].blob
  {
    if path in assets then Some(Download(path, assets[path])) else None
  }

  /** After attaching a blob at a path, looking the path up yields that blob. */
  lemma AttachThenLookup(assets: AssetTable, path: string, kind: string, component: Option<Component>, blob: Bytes)
    ensures var r := Lookup(Attach(assets, path, kind, component, blob), path);
            r.Some? && r.value.blob == blob
            && r.value.kind == (if path in assets then assets[path].kind else kind)
  {
  }

  /** Attaching at one path leaves every other path's lookup as it was. */
  lemma AttachLeavesOtherPaths(assets: AssetTable, path: string, kind: string, component: Option<Component>,
                               blob: Bytes, other: string)
    requires other != path
    ensures Lookup(Attach(assets, path, kind, component, blob), other) == Lookup(assets, other)
  {
  }

  /** The content facet of one Helm repository. */
  class HelmContentFacet {
    /** The attribute parser used by putComponent. */
    const parse: (AssetKind, Bytes) -> HelmAttributes
    /** The index rewriter that strips absolute URLs, for this repository. */
    const rewrite: Bytes -> Bytes

    var assets: AssetTable
    var components: set<Component>
    /** The paths putIndex stored under, in call order. */
    ghost var indexed: seq<string>

    constructor (parse: (AssetKind, Bytes) -> HelmAttributes, rewrite: Bytes -> Bytes)
      ensures this.parse == parse && this.rewrite == rewrite
      ensures assets == map[] && components == {} && indexed == []
    {
      this.parse := parse;
      this.rewrite := rewrite;
      assets := map[];
      components := {};
      indexed := [];
    }

    /** getAsset: the download of the asset at the path, or empty when there is none. */
    function GetAsset(path: string): (r: Option<Content>)
      reads this
      ensures r == Lookup(assets, path)
      ensures r.None? <==> path !in assets
    {
      Lookup(assets, path)
    }

    /** putIndex: the rewritten blob, not the uploaded one, is attached to the asset
        at the path, whatever the kind; the result is that asset's download. */
    method PutIndex(path: string, content: Bytes, kind: AssetKind) returns (c: Content)
      modifies this
      ensures assets == Attach(old(assets), path, kind.Name(), None, rewrite(content))
      ensures components == old(components)
      ensures indexed == old(indexed) + [path]
      ensures c == Download(path, assets[path]) && c.blob == rewrite(content)
      ensures GetAsset(path) == Some(c)
    {
      var blob := rewrite(content);
      assets := Attach(assets, path, kind.Name(), None, blob);
      indexed := indexed + [path];
      c := Download(path, assets[path]);
    }

    /** putComponent: the uploaded blob, unrewritten, is attached to the asset at the
        path, which belongs to the component named by the path with the parsed
        version; the parsed attributes are recorded under the format name. */
    method PutComponent(path: string, content: Bytes, kind: AssetKind) returns (c: Content)
      modifies this`assets, this`components
      ensures var attrs := parse(kind, content);
              var component := Component(path, attrs.version);
              && components == old(components) + {component}
              && assets == WithAttribute(Attach(old(assets), path, kind.Name(), Some(component), content),
                                         path, FormatName, attrs)
      ensures c == Download(path, assets[path]) && c.blob == content
    {
      var attrs := parse(kind, content);
      var component := Component(path, attrs.version);
      components := components + {component};
      assets := Attach(assets, path, kind.Name(), Some(component), content);
      assets := WithAttribute(assets, path, FormatName, attrs);
      c := Download(path, assets[path]);
    }

    /** delete: false and no change when nothing is at the path; otherwise the
        asset there, and only that one, is removed. */
    method Delete(path: string) returns (deleted: bool)
      modifies this`assets
      ensures deleted <==> path in old(assets)
      ensures assets == old(assets) - {path}
      ensures GetAsset(path).None?
      ensures forall other :: other != path ==> GetAsset(other) == old(GetAsset(other))
    {
      deleted := path in assets;
      if deleted {
        assets := assets - {path};
      }
    }
  }
}
