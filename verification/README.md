# Design-tool image gateway, modelled in Dafny

The service runs on a Cloudflare Worker and takes a link to a node in a Figma
design document. From the link it extracts two identifiers: the document key
and the node id. It then asks the Figma export API for a PNG of that node and
downloads the rendered image. The image goes into an R2 bucket under a key
derived from the export URL, and the original link goes into a KV namespace
under the same key. The image is then served publicly with a thirty-day cache
directive, and an admin route under `/my/` returns the stored link for a key.

An earlier variant of the service stores nothing: it answers POST `/upload`
with the export URL itself.

The model covers the following:

- **`Regex`:** a small backtracking matcher for the two identifier patterns. It
  follows JavaScript semantics: a greedy `+`, the leftmost match, and the first
  capturing group.
- **`Identifiers`:** the two patterns and the extraction step. Each pattern is
  given a declarative reading, and the matcher is proved to agree with it in
  both directions:
  - the key is the maximal alphanumeric run after the leftmost `/file/`;
  - the node id is `<digits>-<digits>` after the leftmost `node-id=` where that
    shape occurs.
- **`Export`:** the export request URL and the choice of the first value of the
  reply's `images` record.
- **`Keys`:** splitting on `/`, taking the last segment, and deriving the
  storage key `<last segment>.png`.
- **`Gateway`:** the routes of `src/index.tsx` as functions from the two stores
  to a response, the new stores, and the outgoing fetches in order:
  - the upload, in stages: `Upload`, `Ingest`, `Download`;
  - `Serve`;
  - `LookupSource`;
  - the router with the basic-auth gate, `Step`.
- **`GatewayLaws`:** the upload's outcomes, proved as if-and-only-if statements.
  The module also proves:
  - the upload-then-read round trips;
  - that the last write wins on a key;
  - that no request deletes a key from either store;
  - two store invariants: `Inv` is preserved by every request; `Joined` is
    preserved while no write fails.
- **`Legacy`:** the storage-less handler of `src/index.ts`, with lemmas
  relating it to the full upload.

The outside world is a set of parameters:
- what the export API answers to a request;
- which bytes the image host returns for a URL;
- whether each of the two concurrent store writes lands.

Store reads always answer.

The basic-auth verdict is a boolean on each `/my/` request. The form
validator's verdict is computed: the field must be present and non-empty.

Three facts about the code shape the model:
- The admin lookup route is `/my/:key/src`.
- The legacy `/upload` answers `Invalid URL` with the default status 200.
- The edge-cache middleware covers every GET, the lookup route included.

## Model

| member | source | states |
|---|---|---|
| Text.RunEnd | src/index.tsx:38-39 | a greedy `+` over a character class stops exactly at the end of the maximal run |
| Text.Decimal | src/index.tsx:87-98 | the number interpolated into the cache directive is a canonical decimal: digits only, no leading zero (a `0` first means the text is `"0"`), reading back to the number |
| Regex.Search | src/index.tsx:38-39 | the match is the leftmost one: none exists before it, and none at all when the search fails |
| Regex.Exec | src/index.tsx:38-39 | `match(...)` yields nothing exactly when the pattern matches nowhere, else the capture group of the leftmost match |
| Regex.MatchLits | src/index.tsx:38-39 | a literal prefix of a pattern matches exactly when the text carries it at that position |
| Identifiers.GiveBackFails | src/index.tsx:39 | backtracking into `\d+` never lets `-` match, so the first digit run is always taken whole |
| Identifiers.FileKeyMatchAt | src/index.tsx:38 | `\/file\/([a-zA-Z0-9]+)` matches at a position iff `/file/` is there followed by an alphanumeric, and then captures the maximal alphanumeric run |
| Identifiers.NodeIdMatchAt | src/index.tsx:39 | `node-id=(\d+-\d+)` matches at a position iff `node-id=` is there followed by digits, `-`, digits, and then captures that maximal shape |
| Identifiers.FileKey | src/index.tsx:38 | no key iff `/file/`+alphanumeric occurs nowhere; otherwise the key is the maximal run after the leftmost such occurrence |
| Identifiers.NodeId | src/index.tsx:39 | no node id iff the shape occurs nowhere; otherwise the node id is `<digits>-<digits>` after the leftmost occurrence |
| Identifiers.FileKeyFound | src/index.tsx:38 | a key is found iff `/file/`+alphanumeric occurs somewhere, and a found key is a non-empty alphanumeric string |
| Identifiers.NodeIdFound | src/index.tsx:39 | a node id is found iff the shape occurs somewhere, and a found one is `<digits>-<digits>` |
| Identifiers.ExtractIds | src/index.tsx:38-43 | both identifiers exist iff both patterns occur; the key is non-empty and alphanumeric and the node id has the dashed-digits shape |
| Identifiers.FileKeyDetermined | src/index.tsx:38 | the leftmost `/file/` occurrence alone fixes the key |
| Identifiers.NodeIdDetermined | src/index.tsx:39 | the leftmost `node-id=` occurrence with the shape alone fixes the node id |
| Identifiers.FigmaLinkExample | src/index.tsx:38-39 | a typical design link yields key `ABC123` and node `10-20` |
| Identifiers.OtherLinkExample | src/index.tsx:41-43 | a link without `/file/` is rejected |
| Export.ExportRequestUrl | src/index.tsx:45-46 | the request goes to the images endpoint and ends with `&scale=1&format=png`; a `?`-free key is exactly the text between the endpoint and the first `?` |
| Export.ExportRequestDistinguishes | src/index.tsx:45-52 | the export URL `…/images/<key>?ids=<node>&scale=1&format=png` differs for different identifier pairs |
| Export.ExtractedLinksExportDistinctly | src/index.tsx:38-52 | two links with extracted identifiers lead to the same export request iff they name the same document and node |
| Export.FirstImageUrl | src/index.tsx:54-57 | the first value of the `images` record is kept iff the record is non-empty and that value is truthy |
| Export.FirstImageUrlIgnoresRest | src/index.tsx:54 | only the first value of the record matters |
| Export.SingleExportSelected | src/index.tsx:54-57 | a reply rendering one node with a non-empty URL yields that URL |
| Export.EmptyRecordSelectsNothing | src/index.tsx:54-57 | an empty `images` record yields nothing, which the handler answers with `figma error` |
| Keys.Split | src/index.tsx:58 | `split('/')` gives at least one part, none holding `/`, and joining the parts with `/` restores the string |
| Keys.SplitJoin | src/index.tsx:58 | splitting a `/`-join of `/`-free parts gives the parts back |
| Keys.JoinInjective | src/index.tsx:58 | `/`-joins of `/`-free parts are equal only for equal parts |
| Keys.LastSegmentUnique | src/index.tsx:58 | `at(-1)` is the one `/`-free suffix that follows the last `/`, or the whole string when there is none |
| Keys.LastSegment | src/index.tsx:58 | `split('/').at(-1)` is the `/`-free suffix after the last `/`, or the whole string when there is none |
| Keys.DeriveKey | src/index.tsx:58 | the storage key is the export URL's last `/`-segment followed by `.png` |
| Keys.DeriveKeyCollisions | src/index.tsx:58 | two export URLs get the same storage key iff their last segments agree |
| Keys.DeriveKeyExample | src/index.tsx:58 | an export URL ending in `/xyz789` is stored as `xyz789.png` |
| Gateway.Put | src/index.tsx:61-68 | a store write changes only its key, and lands or leaves the store as it was |
| Gateway.Upload | src/index.tsx:27-43 | the status is one of 200, 400, 500; the stores change only after both fetches; a 200 names the key now holding the PNG and the link |
| Gateway.Ingest | src/index.tsx:45-57 | the first fetch is the export call; the answer is `figma error`, an exception, or the download's answer; a reply without an `images` record is 500 after that one fetch, with the stores unchanged |
| Gateway.Download | src/index.tsx:58-76 | exactly two fetches were made; the answer is 500 or 200 with the derived key; a rejected image download is 500 with the stores unchanged |
| Gateway.Serve | src/index.tsx:89-101 | a missing key is not found; a stored one is returned with its bytes, `public, max-age=2592000` and its stored content type, or an empty one when it has none |
| Gateway.CacheControlValue | src/index.tsx:87 | thirty days is 2592000 seconds |
| Gateway.LookupSource | src/index.tsx:103-114 | 200 iff a non-empty link is stored under the key, and the body shows that link; otherwise not found |
| Gateway.Step | src/index.tsx:22-25 | an unauthorized request under `/my/` gets 401 and changes nothing; reads never change the stores or fetch |
| GatewayLaws.UploadValidation | src/index.tsx:29-34 | the validation error happens iff the form field is missing or empty, and then nothing else happens |
| GatewayLaws.UploadInvalidUrl | src/index.tsx:38-43 | `Invalid URL` (400) iff the link lacks an identifier; then no fetch and no write |
| GatewayLaws.UploadFigmaError | src/index.tsx:54-57 | `figma error` (400) iff the export reply's first value is missing or falsy; then only the export call was made |
| GatewayLaws.UploadExceptionBeforeWrite | src/index.tsx:52-59 | a reply without an `images` record, or a rejected image download, answers 500 with both stores unchanged and only the fetches made so far |
| GatewayLaws.UploadSuccess | src/index.tsx:58-76 | when every step succeeds, both stores hold exactly the new entry under the derived key and the answer is 200 with that key |
| GatewayLaws.UploadSuccessOnlyIf | src/index.tsx:38-68 | a 200 implies both identifiers, a truthy export URL, the downloaded bytes and both writes landing |
| GatewayLaws.UploadPartialWrite | src/index.tsx:61-68 | a failed write gives 500 without undoing the other: each store holds the entry iff its own write landed |
| GatewayLaws.UploadedKeyIsServed | src/index.tsx:71-114 | the key an upload reports is then served as `image/png` with the cache directive, and its lookup returns the uploaded link |
| GatewayLaws.UploadThenServe | src/index.tsx:59-100 | serving the derived key returns exactly the downloaded bytes |
| GatewayLaws.LastWriteWins | src/index.tsx:58-68 | of two uploads, one after the other, whose export URLs share a last segment, the later one's image and link are what remain |
| GatewayLaws.UnwrittenKeyNotFound | src/index.tsx:92-107 | a key never written is not found by either read |
| GatewayLaws.StepPreservesInv | src/index.tsx:22-114 | every request keeps all stored links non-empty and all stored objects typed `image/png` |
| GatewayLaws.StepNeverRemoves | src/index.tsx:22-114 | no request deletes: every key in either store before a request is still there after it, whatever failed |
| GatewayLaws.RunNeverRemoves | src/index.tsx:22-114 | no series of requests deletes a key from either store |
| GatewayLaws.UploadedKeyPersists | src/index.tsx:58-101 | a key an upload reported as stored is still served, and still has a link, after any later requests |
| GatewayLaws.InvReads | src/index.tsx:95-107 | under that invariant a lookup succeeds iff a link is stored, and every served object says `image/png` |
| GatewayLaws.StepKeepsJoined | src/index.tsx:61-68 | while no write fails, the bucket and the namespace hold the same keys |
| Legacy.LegacyUpload | src/index.ts:13-38 | nothing is fetched iff extraction fails; the answer is 500 iff the export reply has no record; a URL answer is the record's first value verbatim |
| Legacy.LegacyOutcomes | src/index.ts:19-37 | `Invalid URL` iff extraction fails or the first value is falsy; a URL answer iff both succeed |
| Legacy.LegacyEmptyBody | src/index.ts:14-21 | an empty body is answered `Invalid URL` without a fetch |
| Legacy.SameExtraction | src/index.ts:16-30 | both variants reject the same links and send the same export call |
| Legacy.StoredKeyFromLegacyUrl | src/index.ts:32-37 | when the full variant stores an image, the legacy one answers with the export URL whose last segment plus `.png` is the stored key |
| Legacy.FigmaErrorIsLegacyInvalidUrl | src/index.ts:32-35 | the full variant's `figma error` is exactly the legacy `Invalid URL` after a fetch |

## Left out

- The admin listing page (`GET /my/`, `src/index.tsx:116-162`) and the `renderer` and `Image` components of `src/component.tsx` are left out. They are presentation: HTML that lists the namespace's keys.
- The edge-cache middleware (`src/index.tsx:80-85`) is left out. A cached answer is one the model gave for an earlier state of the stores: after an upload overwrites a key that was already served, GET `/<key>` can keep returning the old bytes for up to thirty days. `GatewayLaws.UploadThenServe`, `GatewayLaws.UploadedKeyIsServed` and `GatewayLaws.LastWriteWins` therefore describe what the handlers answer, not what a client sees behind the cache.
- The hello route (`GET /`) and Hono's routing mechanics are left out. Each route is one constructor of `Request`.
- HTTP bodies are abstract values of `Body`. The JSON and HTML encodings are left out, and so are the content-type headers that `c.json` and `c.html` add.
- `Gateway.Upload`: the validator's error body is abstract (`ValidationErrorJson`) rather than the library's JSON. The basic-auth challenge header is left out.
- The details of `fetch` and `res.json()` are left out. Any reply without a usable `images` record becomes `NoImagesRecord`, an uncaught exception that the framework turns into 500. A rejected image download becomes `None`.
- `Export.FirstImageUrl`: the record's entries are taken in the order `Object.values` would list them. That order (integer-like keys first) is not modelled.
- `Gateway.Download`: the two writes run concurrently. The model records only whether each one landed, not their interleaving. The 500 after a failed write follows from the rejection of the `Promise.all`.
- Failed store reads are left out. `Serve` and `LookupSource` assume that `FIGMA_IMAGE_BUCKET.get`, `object.arrayBuffer()` and `FIGMA_URL_KV.get` (`src/index.tsx:92-106`) answer. A rejected read would be an uncaught exception, answered 500, which the model omits; so both reads answer only 200 or 404 here.
- Each request is one atomic step of `Step` and `Run`. Concurrent uploads to the same key are left out: their `Promise.all` writes (`src/index.tsx:61-68`) can interleave, so the bucket can hold one upload's image while the namespace holds the other's link. `GatewayLaws.LastWriteWins` covers only uploads that run one after the other.
- Credentials (`USER`, `PASS`) are left out. Their check is the `authorized` flag.
- Strings are sequences of Unicode scalar values (`char`), with no normalisation. A character outside the Basic Multilingual Plane is one `char` here and two UTF-16 code units in JavaScript. No stated property depends on this, because both patterns and the `/` separator are ASCII.
