/**
 * The export call: the request the upload handlers send to the rendering API,
 * the shape of its reply, and the selection of the first exported image.
 */
module Export {
  import opened Wrappers
  import opened Text
  import opened Identifiers

  const ApiPrefix: string := "https://api.figma.com/v1/images/"
  const IdsParam: string := "?ids="
  const FixedParams: string := "&scale=1&format=png"

  /**
   * The export endpoint for one node: scale 1, PNG output. When the key holds
   * no `?`, it is exactly the text between the endpoint and the first `?`.
   */
  function ExportRequestUrl(ids: Identifiers): (u: string)
    ensures ApiPrefix <= u
    ensures u[|u| - |FixedParams|..] == FixedParams
    ensures '?' !in ids.fileKey ==>
              && |ApiPrefix| + |ids.fileKey| < |u|
              && u[|ApiPrefix| + |ids.fileKey|] == '?'
              && '?' !in u[|ApiPrefix|..|ApiPrefix| + |ids.fileKey|]
  {
    ApiPrefix + ids.fileKey + IdsParam + ids.nodeId + FixedParams
  }

  /**
   * The request names the document and the node unambiguously: a document key
   * holds no `?`, so two requests are equal only for equal identifiers.
   */
  lemma ExportRequestDistinguishes(a: Identifiers, b: Identifiers)
    requires '?' !in a.fileKey && '?' !in b.fileKey
    ensures ExportRequestUrl(a) == ExportRequestUrl(b) <==> a == b
  {
    if ExportRequestUrl(a) == ExportRequestUrl(b) {
      var ra := IdsParam[1..] + a.nodeId + FixedParams;
      var rb := IdsParam[1..] + b.nodeId + FixedParams;
      ExportUrlShape(a);
      ExportUrlShape(b);
      CancelPrefix(ApiPrefix, a.fileKey + ['?'] + ra, b.fileKey + ['?'] + rb);
      FirstSeparator(a.fileKey, ra, b.fileKey, rb, '?');
      CancelAround(IdsParam[1..], a.nodeId, b.nodeId, FixedParams);
    }
  }

  /** The request URL is the prefix, the key, a `?`, then the node id and the fixed parameters. */
  lemma ExportUrlShape(ids: Identifiers)
    ensures ExportRequestUrl(ids) == ApiPrefix + (ids.fileKey + ['?'] + (IdsParam[1..] + ids.nodeId + FixedParams))
  {
    assert IdsParam == ['?'] + IdsParam[1..];
  }

  /** An extracted document key never holds `?`, so the request carries both identifiers. */
  lemma ExtractedKeyHasNoQuery(ids: Identifiers)
    requires AllIn(ids.fileKey, Alnum)
    ensures '?' !in ids.fileKey
  {
  }

  /**
   * Two links from which identifiers are extracted lead to the same export
   * request exactly when they name the same document and node.
   */
  lemma ExtractedLinksExportDistinctly(s1: string, s2: string)
    ensures ExtractIds(s1).Some? && ExtractIds(s2).Some? ==>
              (ExportRequestUrl(ExtractIds(s1).value) == ExportRequestUrl(ExtractIds(s2).value)
               <==> ExtractIds(s1) == ExtractIds(s2))
  {
    if ExtractIds(s1).Some? && ExtractIds(s2).Some? {
      var a := ExtractIds(s1).value;
      var b := ExtractIds(s2).value;
      ExtractedKeyHasNoQuery(a);
      ExtractedKeyHasNoQuery(b);
      ExportRequestDistinguishes(a, b);
    }
  }

  /**
   * The `images` member of the parsed reply. `ImagesRecord` lists the record's
   * entries in `Object.values` order, with JSON `null` as `None`.
   * `NoImagesRecord` covers a reply where `Object.values` cannot run: the fetch
   * rejected, the body was not JSON, or `images` was absent or `null`.
   */
  datatype ExportReply =
    | ImagesRecord(entries: seq<(string, Option<string>)>)
    | NoImagesRecord

  /**
   * `Object.values(images)[0]`, kept only when truthy: an empty record, a `null`
   * first value and an empty-string first value all fail.
   */
  function FirstImageUrl(entries: seq<(string, Option<string>)>): (r: Option<string>)
    ensures r.Some? <==> |entries| > 0 && Truthy(entries[0].1)
    ensures r.Some? ==> r.value == entries[0].1.value
  {
    var first := if |entries| == 0 then None else entries[0].1;
    if Truthy(first) then first else None
  }

  /** Only the first value of the record is ever looked at. */
  lemma FirstImageUrlIgnoresRest(entries: seq<(string, Option<string>)>, more: seq<(string, Option<string>)>)
    requires |entries| > 0
    ensures FirstImageUrl(entries + more) == FirstImageUrl(entries)
  {
    assert (entries + more)[0] == entries[0];
  }

  /** The reply the API gives for a single rendered node yields that node's URL. */
  lemma SingleExportSelected(node: string, url: string)
    requires url != ""
    ensures FirstImageUrl([(node, Some(url))]) == Some(url)
  {
  }

  /** `{images: {}}` selects nothing. */
  lemma EmptyRecordSelectsNothing()
    ensures FirstImageUrl([]) == None
  {
  }
}
