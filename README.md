# Immich API client: a verified Dafny model

This project models the core of a small command-line tool for an Immich
media server. The tool finds "motion photos", which are photos with an
embedded live video, and asks the server to transcode that video. Two
pieces of logic are modelled:

- **Server-URL normalisation** (`Utils`, `utils.dfy`). The configured URL is
  split into its six components (scheme, netloc, path, params, query,
  fragment). At most one trailing `/` is stripped from the path. Then `/api`
  is appended unless the path already ends with it. The other five components
  are carried over unchanged. The function is total.
- **The API client** (`Client`, `client.dfy`). The class `ImmichClient`
  stores the normalised base URL and the default headers, and it never changes
  them after construction. It has:
  - the status gate `ResponseJsonOrNone`;
  - the single-asset lookup `GetAssetInfo`, which gives None on any status
    other than 200;
  - the transcode submission `TranscodeAssets`, which fails unless the status
    is 204;
  - the paginated motion-photo search `GetMpAssets`.

  The server is an oracle: a function from the request the client sends to the
  response it receives, with the JSON payload already decoded. The search is a
  `while` loop. Its specification is `Trace`, the sequence of request/response
  exchanges the search makes. The result is the concatenation of the
  surviving assets of every successful page, in visit order. An empty result
  is returned as None. A tail-recursive form of the loop, `ScanFrom`, is
  proved equal to that trace-based result.

The search in the source has no bound: a server that always names another page
keeps it running forever. The model therefore gives the loop a request budget
(`fuel`). It returns `FuelExhausted` when the budget runs out.
`TraceFuelIndependent` proves that once the scan has stopped, a larger budget
changes nothing. `EndlessServerNeverStops` proves that no budget is enough
for a server that always continues.

Python truthiness is written out:
- `nextPage` is null, a number or a string, and null, `0` and `""` end the
  scan (`HasNextPage`);
- the optional `start_date` is an `Option`, whose `Some` value is the
  already-formatted timestamp string.

## Model

| member | source | states |
|---|---|---|
| Utils.StripTrailingSlash | immich/utils.py:8-10 | removes at most one character; the result is a prefix of the path; it differs from the path exactly when the path ends with `/` |
| Utils.NormalizePath | immich/utils.py:6-13 | the normalised path always ends with `/api`, for every input string (no error case) |
| Utils.NormalizeUrl | immich/utils.py:15 | only the path is replaced; scheme, netloc, params, query and fragment are carried over; the new path ends with `/api` |
| Utils.ParseServerUrl | immich/utils.py:4-17 | a URL whose path already ends with `/api` comes back as the library's join of its own split, unchanged by the transform; whenever the library parses the joined string back to the normalised record, the stored URL's path ends with `/api` |
| Utils.NormalizePathIdempotent | immich/utils.py:9-13 | normalising an already normalised path returns it unchanged |
| Utils.NormalizeUrlIdempotent | immich/utils.py:4-17 | normalising an already normalised URL record returns it unchanged |
| Utils.NormalizePathKeepsExistingRoot | immich/utils.py:9-13 | if the path minus one trailing `/` already ends with `/api`, the result is exactly that path (`/api/` gives `/api`) |
| Utils.NormalizePathAppendsRoot | immich/utils.py:9-13 | otherwise the result is the path minus one trailing `/`, followed by `/api` (the empty path and `/` both give `/api`) |
| Utils.NormalizePathDropsOneSlash | immich/utils.py:9-10 | a path ending with `//` keeps one slash before `/api`: the result is the path followed by `api` (`/x//` gives `/x//api`) |
| Utils.RootMayRepeat | immich/utils.py:12 | `/x/api/api` is left as it is, so only "ends with `/api`" is promised, not "contains it once" |
| Utils.NormalizeUrlExample | immich/utils.py:4-17 | `https://photos.example.com/` normalises to `https://photos.example.com/api`, component by component |
| Utils.ParseServerUrlIdempotent | immich/utils.py:4-17 | when the URL library parses back what it joined, the string-level function is idempotent and the parsed result's path ends with `/api` |
| Client.DefaultHeaders | immich/client.py:11-15 | exactly the keys `Accept`, `Content-Type` and `x-api-key`; the first two are `application/json` and the third carries the API key |
| Client.HasNextPage | immich/client.py:68-71 | null, the number 0 and the empty string end the scan; any other number or string continues it |
| Client.ResponseJsonOrNone | immich/client.py:18-26 | returns the payload if and only if the status equals the expected status (default 200), otherwise None |
| Client.MotionPhotos | immich/client.py:64-65 | an asset is kept if and only if it is on the page and its `livePhotoVideoId` is not null; never longer than the page |
| Client.MotionPhotosAppend | immich/client.py:65 | the filter distributes over concatenation, so it keeps the relative order of the page's items |
| Client.Collected | immich/client.py:61-66 | every accumulated asset has a non-null `livePhotoVideoId` |
| Client.CollectedAppend | immich/client.py:66 | the accumulator over consecutive runs of pages is the concatenation of the accumulators of each run, in visit order |
| Client.FailedPageAddsNothing | immich/client.py:57-59 | a non-200 page contributes nothing; what earlier pages accumulated is the result |
| Client.MotionPhotosOrNone | immich/client.py:73 | None exactly when nothing was accumulated; never an empty list |
| Client.LastPageResult | immich/client.py:58-73 | after a failed page or a page with no next page, the search returns what was accumulated plus that page's motion photos (nothing for a failed page), or None if that is empty |
| Client.ContinuedPageResult | immich/client.py:64-71 | after a 200 page that names a next page, the result is that of the scan from the named page, started with this page's motion photos appended to the accumulator |
| Client.ScanResult | immich/client.py:58-73 | the search returns a result exactly when it has stopped; a returned list is non-empty and holds only motion photos; None exactly when nothing was collected |
| Client.ImmichClient.constructor | immich/client.py:8-15 | the stored base URL is the normalised form of the configured URL; the default headers carry the API key |
| Client.ImmichClient.AssetRequest | immich/client.py:29-34 | the lookup is a GET to the base URL followed by `/assets/` and the identifier, with the default headers and no body |
| Client.ImmichClient.SearchRequest | immich/client.py:42-57 | every search is a POST to the base URL followed by `/search/metadata`, with `isMotion` true and the given page; `takenAfter` is present exactly when a start date is given |
| Client.ImmichClient.TranscodeRequest | immich/client.py:77-85 | the job is a POST to the base URL followed by `/assets/jobs`, with exactly the given `assetIds` and the name `transcode-video` |
| Client.ImmichClient.GetAssetInfo | immich/client.py:28-35 | returns the asset if and only if the server answers 200, so None for every other status |
| Client.ImmichClient.TranscodeAssets | immich/client.py:76-88 | succeeds if and only if the server answers 204; every other status is a failure |
| Client.ImmichClient.Trace | immich/client.py:45-71 | at most one request per unit of budget; a scan that used fewer requests than its budget has stopped |
| Client.ImmichClient.TraceShape | immich/client.py:48-71 | the first request is for the start page; each response is the server's answer; every exchange but the last continues, and the next request is for the `nextPage` the previous response named |
| Client.ImmichClient.ScanFrom | immich/client.py:45-73 | the loop's running form from a page, an accumulator and a budget: a returned list is never empty and starts with what was accumulated, and a non-empty accumulator is always returned as a list |
| Client.ImmichClient.ScanFromStep | immich/client.py:49-71 | one iteration of the loop: a failed page or a last page ends it with what was accumulated plus that page's motion photos; otherwise it goes on at the page the response names, with one request fewer |
| Client.ImmichClient.ScanFromTraceEmpty | immich/client.py:49-71 | with no requests left the search has made no exchange and has not returned |
| Client.ImmichClient.ScanFromTraceLast | immich/client.py:58-73 | for a page that ends the scan, the loop's running form returns the trace-based result |
| Client.ImmichClient.ScanFromTraceNext | immich/client.py:64-71 | for a page that continues the scan, the agreement between the loop's running form and the trace-based result carries over from the page it names |
| Client.ImmichClient.TraceFuelIndependent | immich/client.py:49-71 | once the scan has stopped, allowing more requests gives the same exchanges |
| Client.ImmichClient.EndlessServerNeverStops | immich/client.py:49-71 | a server that always answers 200 with a next page keeps the scan running for any number of requests |
| Client.ImmichClient.ScanFromTrace | immich/client.py:45-73 | the loop's running form equals the trace-based result: the accumulator followed by what the visited pages contributed, once the scan stops |
| Client.ImmichClient.GetMpAssets | immich/client.py:38-73 | the loop returns the trace-based result from page 1; a returned list is never empty and holds only assets with a live video |
| Client.ImmichClient.TwoPagesExample | immich/client.py:45-73 | pages `[A, B]` (next page 2) then `[C]` (no next page) give `[A, B, C]` |
| Client.ImmichClient.FailingSecondPageExample | immich/client.py:57-59 | page 1 gives `[A]` and names page 2, which answers 500: the result is `[A]`, with no failure |
| Client.ImmichClient.NullLiveVideoExample | immich/client.py:64-65 | an item with a null live video between two motion photos is dropped |

## Left out

- Network transport (`requests.request`) and JSON decoding (`response.json()`) are not modelled. The server is a function parameter that returns an already-decoded payload. Transport errors, decoding errors and missing JSON keys, which raise in the source, are not modelled.
- URL splitting and joining (`urlparse`, `urlunparse`) are library code. They are passed in as function parameters. The URL is modelled as the six-field record. No string-level round trip is claimed: `ParseServerUrlIdempotent` assumes that parsing gives back what was joined.
- Timestamp formatting (`isoformat(timespec="milliseconds")`) is not modelled. The start date is the formatted string, either present or absent.
- Client.ImmichClient.GetMpAssets: the source loop has no bound. The model takes a request budget and returns `FuelExhausted` when the budget runs out. Termination is not claimed for arbitrary servers, and `EndlessServerNeverStops` shows why.
- Client.HasNextPage: `nextPage` values other than null, a number or a string (booleans, floats, lists) are not modelled.
- Headers are built once from the API key and attached to every request. Nothing else is proved about them.
- The command-line script `immich-encode-mp.py` is not part of this model. It holds argument parsing, logging set-up, the confirmation prompt and console output.
