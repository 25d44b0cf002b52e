/** Values shared by the Helm upload handler and the Helm content facet. */
module Helm {

  /** The bytes of an uploaded file or stored blob; they are never interpreted here. */
  type Bytes = seq<bv8>

  datatype Option<+T> = None | Some(value: T)

  datatype Result<+T, +E> = Success(value: T) | Failure(error: E)

  /** The format name under which uploads are permission-checked and attributes are recorded. */
  const FormatName: string := "helm"

  /** The kinds of Helm asset a file name can be classified into. */
  datatype AssetKind = HelmIndex | HelmPackage | HelmProvenance
  {
    /** The enum constant's name, the tag stored as an asset's kind. */
    function Name(): (r: string)
      ensures r != []
    {
      match this
      case HelmIndex => "HELM_INDEX"
      case HelmPackage => "HELM_PACKAGE"
      case HelmProvenance => "HELM_PROVENANCE"
    }

    /** A chart file: the only kinds the upload pipeline accepts. */
    predicate IsChartFile() {
      this == HelmPackage || this == HelmProvenance
    }
  }

  /** Attributes parsed out of a chart or provenance file; either field may be null. */
  datatype HelmAttributes = HelmAttributes(name: Option<string>, version: Option<string>)

  /** Java's Character.isWhitespace as of Java 9 (Unicode 8 and later): the ASCII
      controls TAB to CR and FS to US, and every Unicode space, line or paragraph
      separator except the non-breaking ones (U+00A0, U+2007, U+202F). Java 8
      (Unicode 6.2) also counts U+180E, which is not whitespace here. */
  predicate IsWhitespace(c: char) {
    var n := c as int;
    (0x09 <= n <= 0x0D) || (0x1C <= n <= 0x20)
    || n == 0x1680
    || (0x2000 <= n <= 0x200A && n != 0x2007)
    || n == 0x2028 || n == 0x2029 || n == 0x205F || n == 0x3000
  }

  /** StringUtils.isBlank: null, empty, or whitespace only. */
  predicate IsBlank(s: Option<string>) {
    s.None? || forall i :: 0 <= i < |s.value| ==> IsWhitespace(s.value[i])
  }
}
