/**
 * The gateway's handlers (`src/index.tsx`): upload behind the admin gate, public
 * serving with long-lived cache headers, and the source-link lookup. Each
 * handler is a transition from the two stores to a response and the new stores.
 * The network is a parameter: what the export API and the image host answer,
 * and whether each of the two concurrent store writes goes through.
 */
module Gateway {
  import opened Wrappers
  import opened Text
  import opened Identifiers
  import opened Export
  import opened Keys

  newtype byte = x: int | 0 <= x < 256
  type Bytes = seq<byte>

  /** An R2 object: its bytes and the content type of its HTTP metadata, if any. */
  datatype StoredObject = StoredObject(data: Bytes, contentType: Option<string>)

  /** The image bucket (key to object) and the source-link namespace (key to link). */
  datatype State = State(bucket: map<string, StoredObject>, kv: map<string, string>)

  const PngContentType: string := "image/png"
  const InvalidUrlMessage: string := "Invalid URL"
  const FigmaErrorMessage: string := "figma error"

  /** Thirty days, in seconds. */
  const MaxAge: nat := 60 * 60 * 24 * 30

  /** `public, max-age=${maxAge}`. */
  function CacheControl(): string {
    "public, max-age=" + Decimal(MaxAge)
  }

  datatype Body =
    | MessageJson(message: string)     // `c.json({ message })`
    | UrlJson(url: string)             // `c.json({ url })`
    | UploadedPage(fileName: string)   // the "Uploaded" fragment showing the stored image
    | SourceLink(url: string)          // the link to the original design document
    | Blob(data: Bytes)                // the stored image bytes
    | NotFoundText                     // `c.notFound()`
    | ValidationErrorJson              // the form validator's rejection
    | UnauthorizedText                 // the basic-auth challenge
    | InternalErrorText                // an exception escaping the handler

  datatype Response = Response(status: nat, headers: seq<(string, string)>, body: Body)

  /** An outgoing `fetch`: its URL and the `X-Figma-Token` header it carries, if any. */
  datatype Outbound = Outbound(url: string, figmaToken: Option<string>)

  /**
   * What the outside world does during one upload: the export API's reply to a
   * request, the image host's bytes for a URL (`None` when the fetch rejects),
   * and whether the bucket put and the namespace put each succeed.
   */
  datatype Network = Network(
    figma: Outbound -> ExportReply,
    cdn: string -> Option<Bytes>,
    bucketPutSucceeds: bool,
    kvPutSucceeds: bool)

  datatype Config = Config(figmaToken: string)

  /** A handler's result: the response, the stores afterwards and the fetches it issued, in order. */
  datatype Outcome = Outcome(response: Response, state: State, requests: seq<Outbound>)

  /** The routes, with the basic-auth verdict on the routes under `/my/`. */
  datatype Request =
    | UploadRequest(authorized: bool, figmaUrl: Option<string>)  // POST /my/upload
    | ServeRequest(key: string)                                   // GET /:key
    | SourceRequest(authorized: bool, key: string)                // GET /my/:key/src

  const NotFound: Response := Response(404, [], NotFoundText)
  const Unauthorized: Response := Response(401, [], UnauthorizedText)
  const InternalError: Response := Response(500, [], InternalErrorText)

  function Json400(message: string): Response {
    Response(400, [], MessageJson(message))
  }

  /** The export API call for a pair of identifiers, authenticated with the API token. */
  function ExportCall(ids: Identifiers, cfg: Config): Outbound {
    Outbound(ExportRequestUrl(ids), Some(cfg.figmaToken))
  }

  /** The image download: a plain `fetch` of the export URL. */
  function ImageCall(imageUrl: string): Outbound {
    Outbound(imageUrl, None)
  }

  /** A store write that either lands or leaves the store as it was. */
  function Put<V>(m: map<string, V>, key: string, value: V, succeeds: bool): (m': map<string, V>)
    ensures m' - {key} == m - {key}
    ensures succeeds ==> key in m' && m'[key] == value
    ensures !succeeds ==> m' == m
  {
    if succeeds then m[key := value] else m
  }

  /**
   * The two writes of a successful ingestion: the image under `key` with type
   * `image/png`, and the source link under the same key.
   */
  function StoreUpload(st: State, key: string, image: Bytes, figmaUrl: string, net: Network): State {
    State(Put(st.bucket, key, StoredObject(image, Some(PngContentType)), net.bucketPutSucceeds),
          Put(st.kv, key, figmaUrl, net.kvPutSucceeds))
  }

  /** `st'` agrees with `st` on every key but `key`, in both stores. */
  predicate OnlyKeyChanged(st: State, st': State, key: string) {
    st'.bucket - {key} == st.bucket - {key} && st'.kv - {key} == st.kv - {key}
  }

  /** After the upload, `key` holds the PNG image and `figmaUrl`, and nothing else changed. */
  predicate StoredUnder(st: State, st': State, key: string, figmaUrl: string) {
    && OnlyKeyChanged(st, st', key)
    && key in st'.bucket && st'.bucket[key].contentType == Some(PngContentType)
    && key in st'.kv && st'.kv[key] == figmaUrl
  }

  /**
   * What every upload outcome satisfies: one of the three statuses; the stores
   * change only once both fetches have been made, and the answer is then 200
   * or 500; and a success names the key under which the link and a PNG now sit.
   */
  predicate UploadEffect(st: State, figmaUrl: string, o: Outcome) {
    && o.response.status in {200, 400, 500}
    && (o.state == st || (o.response.status in {200, 500} && |o.requests| == 2))
    && (o.response.status == 200 ==>
          o.response.body.UploadedPage? && StoredUnder(st, o.state, o.response.body.fileName, figmaUrl))
  }

  /**
   * POST /my/upload, past the admin gate. The form field must be a non-empty
   * string and the link must yield both identifiers; the rest is `Ingest`.
   */
  function Upload(st: State, figmaUrl: Option<string>, cfg: Config, net: Network): (o: Outcome)
    ensures UploadEffect(st, figmaUrl.GetOr(""), o)
    ensures o.response.status == 200 ==> Truthy(figmaUrl)
  {
    if !Truthy(figmaUrl) then Outcome(Response(400, [], ValidationErrorJson), st, [])
    else
      match ExtractIds(figmaUrl.value)
      case None => Outcome(Json400(InvalidUrlMessage), st, [])
      case Some(ids) => Ingest(st, figmaUrl.value, ids, cfg, net)
  }

  /**
   * The export call: its first image URL must be truthy, otherwise the upload
   * fails with `figma error`; a reply without an `images` record is an exception.
   */
  function Ingest(st: State, figmaUrl: string, ids: Identifiers, cfg: Config, net: Network): (o: Outcome)
    ensures UploadEffect(st, figmaUrl, o)
    ensures |o.requests| >= 1 && o.requests[0] == ExportCall(ids, cfg)
    ensures o.response in {Json400(FigmaErrorMessage), InternalError} || o.response.status == 200
    ensures net.figma(ExportCall(ids, cfg)).NoImagesRecord? ==> o == Outcome(InternalError, st, [ExportCall(ids, cfg)])
  {
    var apiCall := ExportCall(ids, cfg);
    match net.figma(apiCall)
    case NoImagesRecord => Outcome(InternalError, st, [apiCall])
    case ImagesRecord(entries) =>
      match FirstImageUrl(entries)
      case None => Outcome(Json400(FigmaErrorMessage), st, [apiCall])
      case Some(imageUrl) => Download(st, figmaUrl, apiCall, imageUrl, net)
  }

  /**
   * The image download and the two concurrent writes under the derived key. Any
   * failure here is an exception (500); a write that went through stays.
   */
  function Download(st: State, figmaUrl: string, apiCall: Outbound, imageUrl: string, net: Network): (o: Outcome)
    ensures UploadEffect(st, figmaUrl, o)
    ensures o.requests == [apiCall, ImageCall(imageUrl)]
    ensures o.response in {InternalError, Response(200, [], UploadedPage(DeriveKey(imageUrl)))}
    ensures net.cdn(imageUrl).None? ==> o.response == InternalError && o.state == st
  {
    var fileName := DeriveKey(imageUrl);
    var requests := [apiCall, ImageCall(imageUrl)];
    match net.cdn(imageUrl)
    case None => Outcome(InternalError, st, requests)
    case Some(image) =>
      var st' := StoreUpload(st, fileName, image, figmaUrl, net);
      if net.bucketPutSucceeds && net.kvPutSucceeds then
        Outcome(Response(200, [], UploadedPage(fileName)), st', requests)
      else
        Outcome(InternalError, st', requests)
  }

  /**
   * GET /:key. A stored object is returned with its bytes, the thirty-day cache
   * directive and its stored content type (empty when it has none); anything
   * else is not found.
   */
  function Serve(st: State, key: string): (r: Response)
    ensures key !in st.bucket ==> r == NotFound
    ensures key in st.bucket ==>
              && r.status == 200
              && r.body == Blob(st.bucket[key].data)
              && r.headers == [("Cache-Control", "public, max-age=2592000"),
                               ("Content-Type", st.bucket[key].contentType.GetOr(""))]
  {
    CacheControlValue();
    if key !in st.bucket then NotFound
    else
      var stored := st.bucket[key];
      Response(200, [("Cache-Control", CacheControl()), ("Content-Type", stored.contentType.GetOr(""))],
               Blob(stored.data))
  }

  /** The cache directive spells out 2592000 seconds. */
  lemma CacheControlValue()
    ensures MaxAge == 2592000
    ensures CacheControl() == "public, max-age=2592000"
  {
    assert MaxAge == 2592000;
    MaxAgeDigits();
    DirectiveSpelled();
  }

  lemma DirectiveSpelled()
    ensures "public, max-age=" + "2592000" == "public, max-age=2592000"
  {
  }

  /** The decimal text of thirty days in seconds, digit by digit. */
  lemma MaxAgeDigits()
    ensures Decimal(2592000) == "2592000"
  {
    assert Decimal(2) == "2";
    DecimalStep(25);
    assert Decimal(25) == "25";
    DecimalStep(259);
    assert Decimal(259) == "259";
    DecimalStep(2592);
    assert Decimal(2592) == "2592";
    DecimalStep(25920);
    assert Decimal(25920) == "25920";
    DecimalStep(259200);
    assert Decimal(259200) == "259200";
    DecimalStep(2592000);
  }

  /** GET /my/:key/src, past the admin gate: the stored link, unless it is absent or empty. */
  function LookupSource(st: State, key: string): (r: Response)
    ensures r.status == 200 <==> key in st.kv && st.kv[key] != ""
    ensures r.status == 200 ==> r.body == SourceLink(st.kv[key])
    ensures r.status != 200 ==> r == NotFound
  {
    if key !in st.kv || st.kv[key] == "" then NotFound
    else Response(200, [], SourceLink(st.kv[key]))
  }

  /** One request through the router and the basic-auth gate in front of `/my/`. */
  function Step(st: State, req: Request, cfg: Config, net: Network): (o: Outcome)
    ensures !req.UploadRequest? ==> o.state == st && o.requests == []
    ensures !req.ServeRequest? && !req.authorized ==> o == Outcome(Unauthorized, st, [])
  {
    match req
    case UploadRequest(authorized, figmaUrl) =>
      if !authorized then Outcome(Unauthorized, st, []) else Upload(st, figmaUrl, cfg, net)
    case ServeRequest(key) => Outcome(Serve(st, key), st, [])
    case SourceRequest(authorized, key) =>
      if !authorized then Outcome(Unauthorized, st, []) else Outcome(LookupSource(st, key), st, [])
  }
}
