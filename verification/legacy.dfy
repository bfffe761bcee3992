/**
 * The earlier, storage-less variant of the service (`src/index.ts`): POST
 * /upload takes the design link as the raw request body and answers with the
 * first export URL itself instead of storing the image. Every answer it gives
 * on purpose carries the default status 200; only an exception yields 500.
 */
module Legacy {
  import opened Wrappers
  import opened Text
  import opened Identifiers
  import opened Export
  import opened Keys
  import opened Gateway
  import GatewayLaws

  /** The legacy handler's response and the fetches it issued. */
  datatype Reply = Reply(response: Response, requests: seq<Outbound>)

  const InvalidUrlReply: Response := Response(200, [], MessageJson(InvalidUrlMessage))

  /**
   * POST /upload. Both identifiers must be found in the body; the export API is
   * asked for a PNG at scale 1 and the first value of its `images` record is
   * returned verbatim. A missing record is an exception.
   */
  function LegacyUpload(body: string, cfg: Config, net: Network): (r: Reply)
    ensures r.response.status in {200, 500}
    ensures r.requests == [] <==> ExtractIds(body).None?
    ensures r.requests != [] ==> r.requests == [ExportCall(ExtractIds(body).value, cfg)]
    ensures r.response.status == 500 ==> r.response == InternalError
    ensures r.response == InternalError <==> r.requests != [] && net.figma(r.requests[0]).NoImagesRecord?
    ensures r.response.body.UrlJson? ==>
              && r.requests != []
              && net.figma(r.requests[0]).ImagesRecord?
              && FirstImageUrl(net.figma(r.requests[0]).entries) == Some(r.response.body.url)
  {
    match ExtractIds(body)
    case None => Reply(InvalidUrlReply, [])
    case Some(ids) =>
      var apiCall := ExportCall(ids, cfg);
      match net.figma(apiCall)
      case NoImagesRecord => Reply(InternalError, [apiCall])
      case ImagesRecord(entries) =>
        match FirstImageUrl(entries)
        case None => Reply(InvalidUrlReply, [apiCall])
        case Some(image) => Reply(Response(200, [], UrlJson(image)), [apiCall])
  }

  /**
   * The legacy handler answers `Invalid URL` for two reasons: the link lacks an
   * identifier (nothing fetched), or the export's first value is falsy (one
   * fetch). It returns a URL exactly when that first value is truthy.
   */
  lemma LegacyOutcomes(body: string, cfg: Config, net: Network)
    ensures var r := LegacyUpload(body, cfg, net);
            r.response == InvalidUrlReply <==>
              || ExtractIds(body).None?
              || (var reply := net.figma(ExportCall(ExtractIds(body).value, cfg));
                  reply.ImagesRecord? && FirstImageUrl(reply.entries).None?)
    ensures var r := LegacyUpload(body, cfg, net);
            r.response.body.UrlJson? <==>
              && ExtractIds(body).Some?
              && (var reply := net.figma(ExportCall(ExtractIds(body).value, cfg));
                  reply.ImagesRecord? && FirstImageUrl(reply.entries).Some?)
  {
  }

  /** An empty body names no design and is answered `Invalid URL` without a fetch. */
  lemma LegacyEmptyBody(cfg: Config, net: Network)
    ensures LegacyUpload("", cfg, net) == Reply(InvalidUrlReply, [])
  {
    EmptyInputRejected();
  }

  /**
   * The two variants read a link the same way and ask the export API the same
   * question: the legacy handler fetches nothing exactly when the full one
   * answers `Invalid URL`, and otherwise both start with the same export call.
   */
  lemma SameExtraction(st: State, url: string, cfg: Config, net: Network)
    requires url != ""
    ensures Upload(st, Some(url), cfg, net).response == Json400(InvalidUrlMessage)
            <==> LegacyUpload(url, cfg, net).requests == []
    ensures LegacyUpload(url, cfg, net).requests != [] ==>
              Upload(st, Some(url), cfg, net).requests[0] == LegacyUpload(url, cfg, net).requests[0]
  {
    GatewayLaws.UploadInvalidUrl(st, url, cfg, net);
    match ExtractIds(url)
    case None =>
    case Some(ids) =>
      assert Upload(st, Some(url), cfg, net) == Ingest(st, url, ids, cfg, net);
  }

  /**
   * Where the full variant stores an image, the legacy one would have returned
   * the export URL it came from: the stored key is that URL's final segment
   * with `.png` appended.
   */
  lemma StoredKeyFromLegacyUrl(st: State, url: string, cfg: Config, net: Network)
    requires url != ""
    ensures var r := LegacyUpload(url, cfg, net);
            Upload(st, Some(url), cfg, net).response.status == 200 ==>
            && r.response.body.UrlJson?
            && Upload(st, Some(url), cfg, net).response.body == UploadedPage(DeriveKey(r.response.body.url))
  {
    if Upload(st, Some(url), cfg, net).response.status == 200 {
      GatewayLaws.UploadSuccessOnlyIf(st, url, cfg, net);
      var ids := ExtractIds(url).value;
      var apiCall := ExportCall(ids, cfg);
      var imageUrl := FirstImageUrl(net.figma(apiCall).entries).value;
      assert Upload(st, Some(url), cfg, net) == Ingest(st, url, ids, cfg, net);
      assert Ingest(st, url, ids, cfg, net) == Download(st, url, apiCall, imageUrl, net);
    }
  }

  /**
   * A falsy first export value is `figma error` (400) in the full variant and
   * `Invalid URL` with status 200 in the legacy one.
   */
  lemma FigmaErrorIsLegacyInvalidUrl(st: State, url: string, cfg: Config, net: Network)
    requires url != ""
    ensures Upload(st, Some(url), cfg, net).response == Json400(FigmaErrorMessage)
            <==> LegacyUpload(url, cfg, net) == Reply(InvalidUrlReply, LegacyUpload(url, cfg, net).requests)
                 && LegacyUpload(url, cfg, net).requests != []
  {
    match ExtractIds(url)
    case None =>
      GatewayLaws.UploadInvalidUrl(st, url, cfg, net);
    case Some(ids) =>
      GatewayLaws.UploadFigmaError(st, url, ids, cfg, net);
  }
}
