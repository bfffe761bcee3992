/**
 * Properties of the gateway's handlers: each failure path of the upload, the
 * exact effect of a successful one, the round trip from upload to serving and
 * source lookup, and the invariants every request preserves.
 */
module GatewayLaws {
  import opened Wrappers
  import opened Text
  import opened Identifiers
  import opened Export
  import opened Keys
  import opened Gateway

  // ---------------------------------------------------------------------------
  // The upload's outcomes
  // ---------------------------------------------------------------------------

  /** A missing or empty form field is refused before anything else happens. */
  lemma UploadValidation(st: State, figmaUrl: Option<string>, cfg: Config, net: Network)
    ensures Upload(st, figmaUrl, cfg, net).response.body == ValidationErrorJson <==> !Truthy(figmaUrl)
    ensures !Truthy(figmaUrl) ==>
              Upload(st, figmaUrl, cfg, net) == Outcome(Response(400, [], ValidationErrorJson), st, [])
  {
    if Truthy(figmaUrl) {
      match ExtractIds(figmaUrl.value)
      case None =>
      case Some(ids) =>
        assert Upload(st, figmaUrl, cfg, net) == Ingest(st, figmaUrl.value, ids, cfg, net);
    }
  }

  /**
   * `Invalid URL` (400) is the answer exactly when the link lacks an identifier;
   * then nothing is fetched and nothing is stored.
   */
  lemma UploadInvalidUrl(st: State, url: string, cfg: Config, net: Network)
    requires url != ""
    ensures Upload(st, Some(url), cfg, net).response == Json400(InvalidUrlMessage) <==> ExtractIds(url).None?
    ensures ExtractIds(url).None? ==> Upload(st, Some(url), cfg, net) == Outcome(Json400(InvalidUrlMessage), st, [])
  {
    match ExtractIds(url)
    case None =>
    case Some(ids) =>
      assert Upload(st, Some(url), cfg, net) == Ingest(st, url, ids, cfg, net);
  }

  /**
   * `figma error` (400) is the answer exactly when the export reply's record is
   * empty or its first value is falsy; then only the export call was made and
   * nothing is stored.
   */
  lemma UploadFigmaError(st: State, url: string, ids: Identifiers, cfg: Config, net: Network)
    requires url != ""
    ensures var reply := net.figma(ExportCall(ids, cfg));
            ExtractIds(url) == Some(ids) ==>
              (Upload(st, Some(url), cfg, net).response == Json400(FigmaErrorMessage)
               <==> reply.ImagesRecord? && FirstImageUrl(reply.entries).None?)
    ensures var reply := net.figma(ExportCall(ids, cfg));
            ExtractIds(url) == Some(ids) && reply.ImagesRecord? && FirstImageUrl(reply.entries).None? ==>
              Upload(st, Some(url), cfg, net) == Outcome(Json400(FigmaErrorMessage), st, [ExportCall(ids, cfg)])
  {
    if ExtractIds(url) == Some(ids) {
      UploadReachesIngest(st, url, ids, cfg, net);
      IngestFigmaError(st, url, ids, cfg, net);
    }
  }

  lemma IngestFigmaError(st: State, url: string, ids: Identifiers, cfg: Config, net: Network)
    ensures var reply := net.figma(ExportCall(ids, cfg));
            Ingest(st, url, ids, cfg, net).response == Json400(FigmaErrorMessage)
            <==> reply.ImagesRecord? && FirstImageUrl(reply.entries).None?
    ensures var reply := net.figma(ExportCall(ids, cfg));
            reply.ImagesRecord? && FirstImageUrl(reply.entries).None? ==>
              Ingest(st, url, ids, cfg, net) == Outcome(Json400(FigmaErrorMessage), st, [ExportCall(ids, cfg)])
  {
    var reply := net.figma(ExportCall(ids, cfg));
    if reply.ImagesRecord? && FirstImageUrl(reply.entries).Some? {
      IngestReachesDownload(st, url, ids, FirstImageUrl(reply.entries).value, cfg, net);
    }
  }

  /** With a truthy first export URL, ingestion is the download stage. */
  lemma IngestReachesDownload(st: State, url: string, ids: Identifiers, imageUrl: string, cfg: Config, net: Network)
    requires net.figma(ExportCall(ids, cfg)).ImagesRecord?
    requires FirstImageUrl(net.figma(ExportCall(ids, cfg)).entries) == Some(imageUrl)
    ensures Ingest(st, url, ids, cfg, net) == Download(st, url, ExportCall(ids, cfg), imageUrl, net)
  {
  }

  /** The successful ingestion's preconditions on the outside world, step by step. */
  predicate IngestionSucceeds(url: string, ids: Identifiers, imageUrl: string, image: Bytes, cfg: Config, net: Network) {
    && url != ""
    && ExtractIds(url) == Some(ids)
    && net.figma(ExportCall(ids, cfg)).ImagesRecord?
    && FirstImageUrl(net.figma(ExportCall(ids, cfg)).entries) == Some(imageUrl)
    && net.cdn(imageUrl) == Some(image)
  }

  /** Past validation and extraction, the upload is the ingestion stage. */
  lemma UploadReachesIngest(st: State, url: string, ids: Identifiers, cfg: Config, net: Network)
    requires url != ""
    ensures ExtractIds(url) == Some(ids) ==> Upload(st, Some(url), cfg, net) == Ingest(st, url, ids, cfg, net)
  {
  }

  /** Past extraction and the export call, the upload is the download stage. */
  lemma UploadReachesDownload(st: State, url: string, ids: Identifiers, imageUrl: string, image: Bytes, cfg: Config, net: Network)
    ensures IngestionSucceeds(url, ids, imageUrl, image, cfg, net) ==>
              Upload(st, Some(url), cfg, net) == Download(st, url, ExportCall(ids, cfg), imageUrl, net)
  {
    if IngestionSucceeds(url, ids, imageUrl, image, cfg, net) {
      UploadReachesIngest(st, url, ids, cfg, net);
      IngestReachesDownload(st, url, ids, imageUrl, cfg, net);
    }
  }

  /**
   * The two exceptions raised before any write, a reply without an `images`
   * record and a rejected image download, answer 500 and leave both stores
   * as they were.
   */
  lemma UploadExceptionBeforeWrite(st: State, url: string, ids: Identifiers, cfg: Config, net: Network)
    requires url != ""
    ensures ExtractIds(url) == Some(ids) && net.figma(ExportCall(ids, cfg)).NoImagesRecord? ==>
              Upload(st, Some(url), cfg, net) == Outcome(InternalError, st, [ExportCall(ids, cfg)])
    ensures var reply := net.figma(ExportCall(ids, cfg));
            && ExtractIds(url) == Some(ids)
            && reply.ImagesRecord? && FirstImageUrl(reply.entries).Some?
            && net.cdn(FirstImageUrl(reply.entries).value).None?
            ==>
            Upload(st, Some(url), cfg, net)
            == Outcome(InternalError, st, [ExportCall(ids, cfg), ImageCall(FirstImageUrl(reply.entries).value)])
  {
    UploadReachesIngest(st, url, ids, cfg, net);
    var reply := net.figma(ExportCall(ids, cfg));
    if reply.ImagesRecord? && FirstImageUrl(reply.entries).Some? {
      IngestReachesDownload(st, url, ids, FirstImageUrl(reply.entries).value, cfg, net);
    }
  }

  /**
   * With both writes landing, the upload stores the image as `image/png` and the
   * link under the key derived from the export URL, overwriting whatever was
   * there, and answers 200 with that key.
   */
  lemma UploadSuccess(st: State, url: string, ids: Identifiers, imageUrl: string, image: Bytes, cfg: Config, net: Network)
    ensures var key := DeriveKey(imageUrl);
            IngestionSucceeds(url, ids, imageUrl, image, cfg, net) && net.bucketPutSucceeds && net.kvPutSucceeds ==>
            Upload(st, Some(url), cfg, net)
            == Outcome(Response(200, [], UploadedPage(key)),
                       State(st.bucket[key := StoredObject(image, Some(PngContentType))], st.kv[key := url]),
                       [ExportCall(ids, cfg), ImageCall(imageUrl)])
  {
    UploadReachesDownload(st, url, ids, imageUrl, image, cfg, net);
  }

  /**
   * A 200 happens only when every step went through: both identifiers, a truthy
   * first export URL, the image bytes, and both writes.
   */
  lemma UploadSuccessOnlyIf(st: State, url: string, cfg: Config, net: Network)
    ensures Upload(st, Some(url), cfg, net).response.status == 200 ==>
              && net.bucketPutSucceeds && net.kvPutSucceeds
              && ExtractIds(url).Some?
              && var reply := net.figma(ExportCall(ExtractIds(url).value, cfg));
                 && reply.ImagesRecord?
                 && FirstImageUrl(reply.entries).Some?
                 && net.cdn(FirstImageUrl(reply.entries).value).Some?
  {
    if Upload(st, Some(url), cfg, net).response.status == 200 {
      match ExtractIds(url)
      case None =>
      case Some(ids) =>
        UploadReachesIngest(st, url, ids, cfg, net);
        IngestSuccessOnlyIf(st, url, ids, cfg, net);
    }
  }

  lemma IngestSuccessOnlyIf(st: State, url: string, ids: Identifiers, cfg: Config, net: Network)
    ensures var reply := net.figma(ExportCall(ids, cfg));
            Ingest(st, url, ids, cfg, net).response.status == 200 ==>
              && reply.ImagesRecord?
              && FirstImageUrl(reply.entries).Some?
              && net.cdn(FirstImageUrl(reply.entries).value).Some?
              && net.bucketPutSucceeds && net.kvPutSucceeds
  {
    var reply := net.figma(ExportCall(ids, cfg));
    if reply.ImagesRecord? && FirstImageUrl(reply.entries).Some? {
      var imageUrl := FirstImageUrl(reply.entries).value;
      IngestReachesDownload(st, url, ids, imageUrl, cfg, net);
      DownloadSuccessOnlyIf(st, url, ExportCall(ids, cfg), imageUrl, net);
    }
  }

  lemma DownloadSuccessOnlyIf(st: State, url: string, apiCall: Outbound, imageUrl: string, net: Network)
    ensures Download(st, url, apiCall, imageUrl, net).response.status == 200 ==>
              net.cdn(imageUrl).Some? && net.bucketPutSucceeds && net.kvPutSucceeds
  {
  }

  /**
   * When a write fails the upload answers 500, yet the other write is not rolled
   * back: each store holds the new entry exactly when its own write landed.
   */
  lemma UploadPartialWrite(st: State, url: string, ids: Identifiers, imageUrl: string, image: Bytes, cfg: Config, net: Network)
    ensures var key := DeriveKey(imageUrl);
            var o := Upload(st, Some(url), cfg, net);
            IngestionSucceeds(url, ids, imageUrl, image, cfg, net) && !(net.bucketPutSucceeds && net.kvPutSucceeds) ==>
            && o.response == InternalError
            && o.state.bucket == (if net.bucketPutSucceeds
                                  then st.bucket[key := StoredObject(image, Some(PngContentType))]
                                  else st.bucket)
            && o.state.kv == (if net.kvPutSucceeds then st.kv[key := url] else st.kv)
  {
    UploadReachesDownload(st, url, ids, imageUrl, image, cfg, net);
  }

  // ---------------------------------------------------------------------------
  // Round trips
  // ---------------------------------------------------------------------------

  /**
   * Whatever the upload returned as its key can be served as a PNG with the
   * thirty-day cache directive, and its source lookup gives back the link.
   */
  lemma UploadedKeyIsServed(st: State, url: string, cfg: Config, net: Network)
    ensures var o := Upload(st, Some(url), cfg, net);
            o.response.status == 200 ==>
            var key := o.response.body.fileName;
            && Serve(o.state, key).status == 200
            && Serve(o.state, key).headers == [("Cache-Control", "public, max-age=2592000"),
                                               ("Content-Type", "image/png")]
            && LookupSource(o.state, key) == Response(200, [], SourceLink(url))
  {
  }

  /** Serving the derived key returns exactly the downloaded bytes. */
  lemma UploadThenServe(st: State, url: string, ids: Identifiers, imageUrl: string, image: Bytes, cfg: Config, net: Network)
    ensures var o := Upload(st, Some(url), cfg, net);
            IngestionSucceeds(url, ids, imageUrl, image, cfg, net) && net.bucketPutSucceeds && net.kvPutSucceeds ==>
            Serve(o.state, DeriveKey(imageUrl))
            == Response(200, [("Cache-Control", "public, max-age=2592000"), ("Content-Type", "image/png")],
                        Blob(image))
  {
    UploadSuccess(st, url, ids, imageUrl, image, cfg, net);
  }

  /**
   * Two uploads, one after the other, whose exports share a final path segment
   * land on one key: the later one wins in both stores.
   */
  lemma LastWriteWins(st: State, url1: string, ids1: Identifiers, imageUrl1: string, image1: Bytes, net1: Network,
                      url2: string, ids2: Identifiers, imageUrl2: string, image2: Bytes, net2: Network, cfg: Config)
    ensures var st1 := Upload(st, Some(url1), cfg, net1).state;
            var st2 := Upload(st1, Some(url2), cfg, net2).state;
            var key := DeriveKey(imageUrl1);
            && IngestionSucceeds(url1, ids1, imageUrl1, image1, cfg, net1) && net1.bucketPutSucceeds && net1.kvPutSucceeds
            && IngestionSucceeds(url2, ids2, imageUrl2, image2, cfg, net2) && net2.bucketPutSucceeds && net2.kvPutSucceeds
            && LastSegment(imageUrl1, Slash) == LastSegment(imageUrl2, Slash)
            ==>
            && st2.bucket == st.bucket[key := StoredObject(image2, Some(PngContentType))]
            && st2.kv == st.kv[key := url2]
  {
    if && IngestionSucceeds(url1, ids1, imageUrl1, image1, cfg, net1) && net1.bucketPutSucceeds && net1.kvPutSucceeds
       && IngestionSucceeds(url2, ids2, imageUrl2, image2, cfg, net2) && net2.bucketPutSucceeds && net2.kvPutSucceeds
       && LastSegment(imageUrl1, Slash) == LastSegment(imageUrl2, Slash)
    {
      DeriveKeyCollisions(imageUrl1, imageUrl2);
      var key := DeriveKey(imageUrl1);
      assert DeriveKey(imageUrl2) == key;
      UploadSuccess(st, url1, ids1, imageUrl1, image1, cfg, net1);
      var st1 := Upload(st, Some(url1), cfg, net1).state;
      assert st1 == State(st.bucket[key := StoredObject(image1, Some(PngContentType))], st.kv[key := url1]);
      UploadSuccess(st1, url2, ids2, imageUrl2, image2, cfg, net2);
      OverwriteSameKey(st.bucket, key, StoredObject(image1, Some(PngContentType)), StoredObject(image2, Some(PngContentType)));
      OverwriteSameKey(st.kv, key, url1, url2);
    }
  }

  lemma OverwriteSameKey<V>(m: map<string, V>, key: string, v1: V, v2: V)
    ensures m[key := v1][key := v2] == m[key := v2]
  {
  }

  /** Nothing was ever written under `key`: both reads report not found. */
  lemma UnwrittenKeyNotFound(st: State, key: string)
    requires key !in st.bucket && key !in st.kv
    ensures Serve(st, key) == NotFound && LookupSource(st, key) == NotFound
  {
  }

  // ---------------------------------------------------------------------------
  // Invariants of the stores
  // ---------------------------------------------------------------------------

  /** Every stored link is non-empty and every stored object is typed `image/png`. */
  predicate Inv(st: State) {
    && (forall k :: k in st.kv ==> st.kv[k] != "")
    && (forall k :: k in st.bucket ==> st.bucket[k].contentType == Some(PngContentType))
  }

  /** The two writes of an ingestion keep the invariant whenever the link is non-empty. */
  lemma StoreUploadPreservesInv(st: State, key: string, image: Bytes, figmaUrl: string, net: Network)
    requires Inv(st) && figmaUrl != ""
    ensures Inv(StoreUpload(st, key, image, figmaUrl, net))
  {
  }

  /** The stage that writes keeps the invariant. */
  lemma DownloadPreservesInv(st: State, figmaUrl: string, apiCall: Outbound, imageUrl: string, net: Network)
    requires Inv(st) && figmaUrl != ""
    ensures Inv(Download(st, figmaUrl, apiCall, imageUrl, net).state)
  {
    match net.cdn(imageUrl)
    case None =>
    case Some(image) =>
      StoreUploadPreservesInv(st, DeriveKey(imageUrl), image, figmaUrl, net);
  }

  lemma IngestPreservesInv(st: State, url: string, ids: Identifiers, cfg: Config, net: Network)
    requires Inv(st) && url != ""
    ensures Inv(Ingest(st, url, ids, cfg, net).state)
  {
    var apiCall := ExportCall(ids, cfg);
    match net.figma(apiCall)
    case NoImagesRecord =>
    case ImagesRecord(entries) =>
      match FirstImageUrl(entries)
      case None =>
      case Some(imageUrl) =>
        DownloadPreservesInv(st, url, apiCall, imageUrl, net);
  }

  lemma UploadPreservesInv(st: State, figmaUrl: Option<string>, cfg: Config, net: Network)
    requires Inv(st)
    ensures Inv(Upload(st, figmaUrl, cfg, net).state)
  {
    if Truthy(figmaUrl) {
      match ExtractIds(figmaUrl.value)
      case None =>
      case Some(ids) =>
        IngestPreservesInv(st, figmaUrl.value, ids, cfg, net);
    }
  }

  /** Every request keeps the invariant: uploads write only non-empty links and PNG objects. */
  lemma StepPreservesInv(st: State, req: Request, cfg: Config, net: Network)
    requires Inv(st)
    ensures Inv(Step(st, req, cfg, net).state)
  {
    if req.UploadRequest? && req.authorized {
      UploadPreservesInv(st, req.figmaUrl, cfg, net);
    }
  }

  // ---------------------------------------------------------------------------
  // Nothing is ever deleted
  // ---------------------------------------------------------------------------

  /** Every key of `st` is still a key of `st'`, in both stores. */
  predicate KeepsKeys(st: State, st': State) {
    st.bucket.Keys <= st'.bucket.Keys && st.kv.Keys <= st'.kv.Keys
  }

  lemma DownloadNeverRemoves(st: State, figmaUrl: string, apiCall: Outbound, imageUrl: string, net: Network)
    ensures KeepsKeys(st, Download(st, figmaUrl, apiCall, imageUrl, net).state)
  {
  }

  lemma IngestNeverRemoves(st: State, url: string, ids: Identifiers, cfg: Config, net: Network)
    ensures KeepsKeys(st, Ingest(st, url, ids, cfg, net).state)
  {
    var apiCall := ExportCall(ids, cfg);
    match net.figma(apiCall)
    case NoImagesRecord =>
    case ImagesRecord(entries) =>
      match FirstImageUrl(entries)
      case None =>
      case Some(imageUrl) =>
        DownloadNeverRemoves(st, url, apiCall, imageUrl, net);
  }

  /** No request deletes: every key stored before a request is stored after it, whatever happened. */
  lemma StepNeverRemoves(st: State, req: Request, cfg: Config, net: Network)
    ensures st.bucket.Keys <= Step(st, req, cfg, net).state.bucket.Keys
    ensures st.kv.Keys <= Step(st, req, cfg, net).state.kv.Keys
  {
    if req.UploadRequest? && req.authorized && Truthy(req.figmaUrl) {
      match ExtractIds(req.figmaUrl.value)
      case None =>
      case Some(ids) =>
        UploadReachesIngest(st, req.figmaUrl.value, ids, cfg, net);
        IngestNeverRemoves(st, req.figmaUrl.value, ids, cfg, net);
    }
  }

  /** The stores after a series of requests, each with its own outside world. */
  function Run(st: State, reqs: seq<(Request, Network)>, cfg: Config): State
    decreases |reqs|
  {
    if reqs == [] then st else Run(Step(st, reqs[0].0, cfg, reqs[0].1).state, reqs[1..], cfg)
  }

  /** No series of requests deletes a key. */
  lemma {:induction false} RunNeverRemoves(st: State, reqs: seq<(Request, Network)>, cfg: Config)
    ensures KeepsKeys(st, Run(st, reqs, cfg))
    decreases |reqs|
  {
    if reqs != [] {
      var st1 := Step(st, reqs[0].0, cfg, reqs[0].1).state;
      StepNeverRemoves(st, reqs[0].0, cfg, reqs[0].1);
      RunNeverRemoves(st1, reqs[1..], cfg);
    }
  }

  /**
   * A key the upload reported as stored stays served and keeps a source link
   * through every later series of requests.
   */
  lemma UploadedKeyPersists(st: State, url: string, cfg: Config, net: Network, later: seq<(Request, Network)>)
    ensures var o := Upload(st, Some(url), cfg, net);
            o.response.status == 200 ==>
            var st' := Run(o.state, later, cfg);
            && o.response.body.fileName in st'.bucket
            && o.response.body.fileName in st'.kv
            && Serve(st', o.response.body.fileName).status == 200
  {
    RunNeverRemoves(Upload(st, Some(url), cfg, net).state, later, cfg);
  }

  /** Under the invariant a stored link is always found and every served object says `image/png`. */
  lemma InvReads(st: State, key: string)
    requires Inv(st)
    ensures LookupSource(st, key).status == 200 <==> key in st.kv
    ensures key in st.bucket ==> Serve(st, key).headers[1] == ("Content-Type", "image/png")
  {
  }

  /** The two stores hold the same keys: every image has its link and every link its image. */
  predicate Joined(st: State) {
    st.bucket.Keys == st.kv.Keys
  }

  /** Two writes that both land add the same key to both stores. */
  lemma StoreUploadKeepsJoined(st: State, key: string, image: Bytes, figmaUrl: string, net: Network)
    requires Joined(st) && net.bucketPutSucceeds && net.kvPutSucceeds
    ensures Joined(StoreUpload(st, key, image, figmaUrl, net))
  {
    var st' := StoreUpload(st, key, image, figmaUrl, net);
    assert st'.bucket.Keys == st.bucket.Keys + {key};
    assert st'.kv.Keys == st.kv.Keys + {key};
  }

  /** The stage that writes keeps the stores joined when no write fails. */
  lemma DownloadKeepsJoined(st: State, figmaUrl: string, apiCall: Outbound, imageUrl: string, net: Network)
    requires Joined(st) && net.bucketPutSucceeds && net.kvPutSucceeds
    ensures Joined(Download(st, figmaUrl, apiCall, imageUrl, net).state)
  {
    match net.cdn(imageUrl)
    case None =>
    case Some(image) =>
      StoreUploadKeepsJoined(st, DeriveKey(imageUrl), image, figmaUrl, net);
  }

  lemma IngestKeepsJoined(st: State, url: string, ids: Identifiers, cfg: Config, net: Network)
    requires Joined(st) && net.bucketPutSucceeds && net.kvPutSucceeds
    ensures Joined(Ingest(st, url, ids, cfg, net).state)
  {
    var apiCall := ExportCall(ids, cfg);
    match net.figma(apiCall)
    case NoImagesRecord =>
    case ImagesRecord(entries) =>
      match FirstImageUrl(entries)
      case None =>
      case Some(imageUrl) =>
        DownloadKeepsJoined(st, url, apiCall, imageUrl, net);
  }

  lemma UploadKeepsJoined(st: State, figmaUrl: Option<string>, cfg: Config, net: Network)
    requires Joined(st) && net.bucketPutSucceeds && net.kvPutSucceeds
    ensures Joined(Upload(st, figmaUrl, cfg, net).state)
  {
    if Truthy(figmaUrl) {
      match ExtractIds(figmaUrl.value)
      case None =>
      case Some(ids) =>
        IngestKeepsJoined(st, figmaUrl.value, ids, cfg, net);
    }
  }

  /** As long as no write fails, the stores stay joined on their keys. */
  lemma StepKeepsJoined(st: State, req: Request, cfg: Config, net: Network)
    requires Joined(st)
    requires net.bucketPutSucceeds && net.kvPutSucceeds
    ensures Joined(Step(st, req, cfg, net).state)
  {
    if req.UploadRequest? && req.authorized {
      UploadKeepsJoined(st, req.figmaUrl, cfg, net);
    }
  }
}
