/** The API client: single-asset lookup, the paginated motion-photo search and
    transcode-job submission against the server's HTTP API.

    The network is not modelled: each operation receives the server as a function
    from the request it sends to the response it gets back, with the JSON body of
    the response already decoded into a value. */
module Client {
  import opened Utils

  datatype Option<T> = None | Some(value: T)

  /** Success or a generic failure, for an operation that raises on failure. */
  datatype Outcome = Pass | Fail(message: string)

  /** An asset as the client sees it: its identifier and the identifier of its
      live video, which is JSON null for an ordinary photo. */
  datatype Asset = Asset(id: string, livePhotoVideoId: Option<string>)

  /** The page cursor: the first request sends the number 1, every later one
      sends back whatever the server put in `nextPage`, a number or a string. */
  datatype PageToken = PageNumber(n: int) | PageString(s: string)

  /** The decoded `assets` object of a search response. */
  datatype SearchPage = SearchPage(items: seq<Asset>, nextPage: Option<PageToken>)

  datatype Verb = Get | Post

  /** The JSON body a request carries. */
  datatype Body =
    | NoBody
    | SearchBody(isMotion: bool, page: PageToken, takenAfter: Option<string>)
    | JobBody(assetIds: seq<string>, name: string)

  datatype Request = Request(verb: Verb, url: string, headers: map<string, string>, body: Body)

  /** A response: its status code and its decoded JSON payload. */
  datatype Response<T> = Response(status: int, payload: T)

  /** One request of the search and the response it got. */
  datatype Exchange = Exchange(request: Request, response: Response<SearchPage>)

  /** What the search returns, or that it was still running after the bound on
      the number of requests given to it. */
  datatype ScanOutcome = Returned(assets: Option<seq<Asset>>) | FuelExhausted

  const AssetsEndpoint: string := "/assets/"
  const SearchEndpoint: string := "/search/metadata"
  const JobsEndpoint: string := "/assets/jobs"
  const TranscodeJobName: string := "transcode-video"
  const FirstPage: PageToken := PageNumber(1)

  /** The headers attached to every request. */
  function DefaultHeaders(apiKey: string): (h: map<string, string>)
    ensures h.Keys == {"Accept", "Content-Type", "x-api-key"}
    ensures h["x-api-key"] == apiKey
    ensures h["Accept"] == h["Content-Type"] == "application/json"
  {
    map["Accept" := "application/json", "Content-Type" := "application/json", "x-api-key" := apiKey]
  }

  /** Python truthiness of the `nextPage` value: null, 0 and "" end the scan. */
  predicate HasNextPage(next: Option<PageToken>): (b: bool)
    ensures b <==> next !in {None, Some(PageNumber(0)), Some(PageString(""))}
  {
    match next
    case None => false
    case Some(PageNumber(n)) => n != 0
    case Some(PageString(s)) => s != ""
  }

  predicate IsMotionPhoto(a: Asset) {
    a.livePhotoVideoId.Some?
  }

  /** The payload when the status is the expected one, None otherwise. */
  function ResponseJsonOrNone<T>(response: Response<T>, expectedStatus: int := 200): (r: Option<T>)
    ensures r.Some? <==> response.status == expectedStatus
    ensures r.Some? ==> r.value == response.payload
  {
    if response.status == expectedStatus then Some(response.payload) else None
  }

  /** The local re-filter of one page: keep the assets with a live video, in order. */
  function MotionPhotos(items: seq<Asset>): (r: seq<Asset>)
    ensures |r| <= |items|
    ensures forall a :: a in r <==> a in items && IsMotionPhoto(a)
  {
    if items == [] then []
    else (if IsMotionPhoto(items[0]) then [items[0]] else []) + MotionPhotos(items[1..])
  }

  /** The filter distributes over concatenation, so it keeps the relative order. */
  lemma {:induction false} MotionPhotosAppend(xs: seq<Asset>, ys: seq<Asset>)
    ensures MotionPhotos(xs + ys) == MotionPhotos(xs) + MotionPhotos(ys)
  {
    if xs == [] {
      assert xs + ys == ys;
    } else {
      assert (xs + ys)[1..] == xs[1..] + ys;
      MotionPhotosAppend(xs[1..], ys);
    }
  }

  /** An exchange after which the scan sends another request. */
  predicate Continues(e: Exchange) {
    e.response.status == 200 && HasNextPage(e.response.payload.nextPage)
  }

  /** The scan has ended: its last exchange is a failed page or the last page. */
  predicate Stopped(t: seq<Exchange>) {
    |t| > 0 && !Continues(t[|t| - 1])
  }

  /** What a page adds to the result: its motion photos, or nothing if it failed. */
  function PageContribution(e: Exchange): seq<Asset> {
    if e.response.status == 200 then MotionPhotos(e.response.payload.items) else []
  }

  /** The assets accumulated over the exchanges, pages concatenated in visit order. */
  function Collected(t: seq<Exchange>): (r: seq<Asset>)
    ensures forall a :: a in r ==> IsMotionPhoto(a)
  {
    if t == [] then [] else PageContribution(t[0]) + Collected(t[1..])
  }

  lemma {:induction false} CollectedAppend(t: seq<Exchange>, u: seq<Exchange>)
    ensures Collected(t + u) == Collected(t) + Collected(u)
  {
    if t == [] {
      assert t + u == u;
    } else {
      assert (t + u)[1..] == t[1..] + u;
      CollectedAppend(t[1..], u);
    }
  }

  lemma CollectedSingle(e: Exchange)
    ensures Collected([e]) == PageContribution(e)
  {
    assert [e][1..] == [];
  }

  /** A page that failed stops the scan and adds nothing: what was accumulated
      from the earlier pages is the result. */
  lemma FailedPageAddsNothing(t: seq<Exchange>)
    requires |t| > 0 && t[|t| - 1].response.status != 200
    ensures Collected(t) == Collected(t[..|t| - 1])
  {
    var n := |t|;
    assert t == t[..n - 1] + [t[n - 1]];
    CollectedAppend(t[..n - 1], [t[n - 1]]);
  }

  /** A page that continues the scan does not decide whether it has stopped. */
  lemma StoppedAfterContinue(e: Exchange, rest: seq<Exchange>)
    requires Continues(e)
    ensures Stopped([e] + rest) <==> Stopped(rest)
  {
    if rest != [] {
      assert ([e] + rest)[|rest|] == rest[|rest| - 1];
    }
  }

  /** None instead of an empty list. */
  function MotionPhotosOrNone(acc: seq<Asset>): (r: Option<seq<Asset>>)
    ensures r.None? <==> acc == []
    ensures r.Some? ==> r.value == acc && |r.value| > 0
  {
    if |acc| > 0 then Some(acc) else None
  }

  /** `r` is what the search returns after the exchanges `t`, when `acc` was
      accumulated before them. */
  predicate ResultOf(r: ScanOutcome, acc: seq<Asset>, t: seq<Exchange>) {
    r == if Stopped(t) then Returned(MotionPhotosOrNone(acc + Collected(t))) else FuelExhausted
  }

  /** The result after an exchange that ends the scan. */
  lemma LastPageResult(e: Exchange, acc: seq<Asset>)
    requires !Continues(e)
    ensures ResultOf(Returned(MotionPhotosOrNone(acc + PageContribution(e))), acc, [e])
  {
    CollectedSingle(e);
  }

  /** The result after an exchange that continues the scan is the result `r`
      of the scan from the page it names, with that page's contribution added. */
  lemma ContinuedPageResult(e: Exchange, rest: seq<Exchange>, acc: seq<Asset>, r: ScanOutcome)
    requires Continues(e)
    requires ResultOf(r, acc + PageContribution(e), rest)
    ensures ResultOf(r, acc, [e] + rest)
  {
    assert Stopped([e] + rest) <==> Stopped(rest) by {
      StoppedAfterContinue(e, rest);
    }
    assert Collected([e] + rest) == PageContribution(e) + Collected(rest) by {
      CollectedAppend([e], rest);
      CollectedSingle(e);
    }
    assert acc + Collected([e] + rest) == acc + PageContribution(e) + Collected(rest);
  }

  /** What the search returns for a given sequence of exchanges. */
  function ScanResult(t: seq<Exchange>): (r: ScanOutcome)
    ensures r.Returned? <==> Stopped(t)
    ensures r.Returned? && r.assets.Some? ==>
              r.assets.value != [] && forall a :: a in r.assets.value ==> IsMotionPhoto(a)
    ensures r.Returned? ==> (r.assets.None? <==> Collected(t) == [])
  {
    if Stopped(t) then Returned(MotionPhotosOrNone(Collected(t))) else FuelExhausted
  }

  class ImmichClient {
    /** The normalised base URL every request URL starts with. */
    const serverUrl: string
    const defaultHeaders: map<string, string>

    constructor (url: string, apiKey: string, urlparse: string -> UrlParts, urlunparse: UrlParts -> string)
      ensures serverUrl == ParseServerUrl(url, urlparse, urlunparse)
      ensures defaultHeaders == DefaultHeaders(apiKey)
    {
      serverUrl := ParseServerUrl(url, urlparse, urlunparse);
      defaultHeaders := DefaultHeaders(apiKey);
    }

    /** The request of the single-asset lookup. */
    function AssetRequest(assetId: string): (q: Request)
      ensures q.verb == Get && q.body == NoBody && q.headers == defaultHeaders
      ensures q.url == serverUrl + AssetsEndpoint + assetId
    {
      Request(Get, serverUrl + AssetsEndpoint + assetId, defaultHeaders, NoBody)
    }

    /** The request for one page of the search: always the motion-photo flag and
        the page, and the lower bound on the date only when one is given. */
    function SearchRequest(page: PageToken, startDate: Option<string>): (q: Request)
      ensures q.verb == Post && q.headers == defaultHeaders
      ensures q.url == serverUrl + SearchEndpoint
      ensures q.body.SearchBody? && q.body.isMotion && q.body.page == page
      ensures q.body.takenAfter == startDate
    {
      Request(Post, serverUrl + SearchEndpoint, defaultHeaders, SearchBody(true, page, startDate))
    }

    /** The request submitting one transcode job for the given identifiers. */
    function TranscodeRequest(assetIds: seq<string>): (q: Request)
      ensures q.verb == Post && q.headers == defaultHeaders
      ensures q.url == serverUrl + JobsEndpoint
      ensures q.body == JobBody(assetIds, TranscodeJobName)
    {
      Request(Post, serverUrl + JobsEndpoint, defaultHeaders, JobBody(assetIds, TranscodeJobName))
    }

    /** The asset's record on status 200, None for every other status. */
    function GetAssetInfo(assetId: string, server: Request -> Response<Asset>): (r: Option<Asset>)
      ensures r.Some? <==> server(AssetRequest(assetId)).status == 200
      ensures r.Some? ==> r.value == server(AssetRequest(assetId)).payload
    {
      ResponseJsonOrNone(server(AssetRequest(assetId)))
    }

    /** Passes exactly when the server answers 204 to the job request. */
    function TranscodeAssets(assetIds: seq<string>, server: Request -> Response<()>): (r: Outcome)
      ensures r.Pass? <==> server(TranscodeRequest(assetIds)).status == 204
    {
      if server(TranscodeRequest(assetIds)).status != 204 then Fail("Error on request") else Pass
    }

    /** The exchanges of a search that starts at `page`, with at most `fuel`
        requests: each page is requested once, the next request is for the
        server's `nextPage`, and the scan ends after a failed or a last page. */
    function Trace(startDate: Option<string>, server: Request -> Response<SearchPage>, page: PageToken, fuel: nat)
      : (t: seq<Exchange>)
      ensures |t| <= fuel
      ensures |t| < fuel ==> Stopped(t)
      decreases fuel
    {
      if fuel == 0 then []
      else
        var q := SearchRequest(page, startDate);
        var e := Exchange(q, server(q));
        if Continues(e) then [e] + Trace(startDate, server, e.response.payload.nextPage.value, fuel - 1)
        else [e]
    }

    /** One step of the scan: the exchange for `page`, then, if it continues the
        scan, the exchanges from the page it names. */
    lemma TraceUnfold(startDate: Option<string>, server: Request -> Response<SearchPage>, page: PageToken, fuel: nat)
      requires fuel > 0
      ensures var q := SearchRequest(page, startDate);
              var e := Exchange(q, server(q));
              Trace(startDate, server, page, fuel)
                == [e] + (if Continues(e) then Trace(startDate, server, e.response.payload.nextPage.value, fuel - 1) else [])
    {
    }

    /** The first request is for `page`; every response is the server's answer to
        its request; every exchange but the last continues the scan, and the next
        request is for the page the previous response named. */
    lemma {:induction false} TraceShape(
      startDate: Option<string>, server: Request -> Response<SearchPage>, page: PageToken, fuel: nat)
      ensures var t := Trace(startDate, server, page, fuel);
              && (|t| > 0 ==> t[0].request == SearchRequest(page, startDate))
              && (forall i :: 0 <= i < |t| ==> t[i].response == server(t[i].request))
              && (forall i :: 0 <= i < |t| - 1 ==>
                    Continues(t[i]) && t[i + 1].request == SearchRequest(t[i].response.payload.nextPage.value, startDate))
      decreases fuel
    {
      if fuel > 0 {
        var q := SearchRequest(page, startDate);
        var e := Exchange(q, server(q));
        if Continues(e) {
          var next := e.response.payload.nextPage.value;
          TraceShape(startDate, server, next, fuel - 1);
          var rest := Trace(startDate, server, next, fuel - 1);
          var t := Trace(startDate, server, page, fuel);
          assert t == [e] + rest;
          forall i | 1 <= i < |t|
            ensures t[i] == rest[i - 1]
          {
          }
        }
      }
    }

    /** Once the scan has stopped, more requests allowed change nothing. */
    lemma {:induction false} TraceFuelIndependent(
      startDate: Option<string>, server: Request -> Response<SearchPage>, page: PageToken, fuel: nat, more: nat)
      requires fuel <= more
      requires Stopped(Trace(startDate, server, page, fuel))
      ensures Trace(startDate, server, page, more) == Trace(startDate, server, page, fuel)
      decreases fuel
    {
      var q := SearchRequest(page, startDate);
      var e := Exchange(q, server(q));
      if Continues(e) {
        TraceFuelIndependent(startDate, server, e.response.payload.nextPage.value, fuel - 1, more - 1);
      }
    }

    /** A server that always answers 200 with a next page is never left: the
        search has no bound of its own. */
    lemma {:induction false} EndlessServerNeverStops(
      startDate: Option<string>, server: Request -> Response<SearchPage>, page: PageToken, fuel: nat)
      requires forall q :: server(q).status == 200 && HasNextPage(server(q).payload.nextPage)
      ensures |Trace(startDate, server, page, fuel)| == fuel
      ensures !Stopped(Trace(startDate, server, page, fuel))
      decreases fuel
    {
      if fuel > 0 {
        var q := SearchRequest(page, startDate);
        EndlessServerNeverStops(startDate, server, server(q).payload.nextPage.value, fuel - 1);
      }
    }

    /** The rest of the search as the loop runs it: `acc` holds what the pages
        visited so far contributed, `page` is the next page to request and at
        most `fuel` requests remain. */
    function ScanFrom(
      startDate: Option<string>, server: Request -> Response<SearchPage>, acc: seq<Asset>, page: PageToken, fuel: nat)
      : (r: ScanOutcome)
      ensures r.Returned? ==> r.assets != Some([])
      ensures r.Returned? && r.assets.Some? ==> acc <= r.assets.value
      ensures r.Returned? && acc != [] ==> r.assets.Some?
      decreases fuel
    {
      if fuel == 0 then FuelExhausted
      else
        var response := server(SearchRequest(page, startDate));
        if response.status != 200 then Returned(MotionPhotosOrNone(acc))
        else
          var acc' := acc + MotionPhotos(response.payload.items);
          if !HasNextPage(response.payload.nextPage) then Returned(MotionPhotosOrNone(acc'))
          else ScanFrom(startDate, server, acc', response.payload.nextPage.value, fuel - 1)
    }

    /** One iteration of the loop's running form, stated through the exchange it makes. */
    lemma ScanFromStep(
      startDate: Option<string>, server: Request -> Response<SearchPage>, acc: seq<Asset>, page: PageToken, fuel: nat)
      requires fuel > 0
      ensures var q := SearchRequest(page, startDate);
              var e := Exchange(q, server(q));
              ScanFrom(startDate, server, acc, page, fuel)
                == if Continues(e)
                   then ScanFrom(startDate, server, acc + PageContribution(e), e.response.payload.nextPage.value, fuel - 1)
                   else Returned(MotionPhotosOrNone(acc + PageContribution(e)))
    {
      var response := server(SearchRequest(page, startDate));
      if response.status != 200 {
        assert acc + [] == acc;
      }
    }

    /** The scan from `page` onwards, with `acc` accumulated before it, gives the
        trace-based result: what the visited pages contributed, after `acc`, once
        the server stops it, and still running when the requests run out. */
    predicate AgreesWithTrace(
      startDate: Option<string>, server: Request -> Response<SearchPage>, acc: seq<Asset>, page: PageToken, fuel: nat)
    {
      ResultOf(ScanFrom(startDate, server, acc, page, fuel), acc, Trace(startDate, server, page, fuel))
    }

    /** With no requests left, the scan is still running and the trace is empty. */
    lemma ScanFromTraceEmpty(
      startDate: Option<string>, server: Request -> Response<SearchPage>, acc: seq<Asset>, page: PageToken)
      ensures AgreesWithTrace(startDate, server, acc, page, 0)
    {
      assert Trace(startDate, server, page, 0) == [];
    }

    /** The step of `ScanFromTrace` for a page that ends the scan. */
    lemma ScanFromTraceLast(
      startDate: Option<string>, server: Request -> Response<SearchPage>, acc: seq<Asset>, page: PageToken, fuel: nat)
      requires fuel > 0
      requires !Continues(Exchange(SearchRequest(page, startDate), server(SearchRequest(page, startDate))))
      ensures AgreesWithTrace(startDate, server, acc, page, fuel)
    {
      var q := SearchRequest(page, startDate);
      var e := Exchange(q, server(q));
      TraceUnfold(startDate, server, page, fuel);
      ScanFromStep(startDate, server, acc, page, fuel);
      LastPageResult(e, acc);
    }

    /** The step of `ScanFromTrace` for a page that continues the scan: the
        agreement for the page it names carries over to this one. */
    lemma {:induction false} ScanFromTraceNext(
      startDate: Option<string>, server: Request -> Response<SearchPage>, acc: seq<Asset>, page: PageToken, fuel: nat)
      requires fuel > 0
      requires Continues(Exchange(SearchRequest(page, startDate), server(SearchRequest(page, startDate))))
      ensures AgreesWithTrace(startDate, server, acc, page, fuel)
      decreases fuel, 0
    {
      var q := SearchRequest(page, startDate);
      var e := Exchange(q, server(q));
      var next := e.response.payload.nextPage.value;
      var rest := Trace(startDate, server, next, fuel - 1);
      var r := ScanFrom(startDate, server, acc + PageContribution(e), next, fuel - 1);
      ScanFromTrace(startDate, server, acc + PageContribution(e), next, fuel - 1);
      ContinuedPageResult(e, rest, acc, r);
      assert Trace(startDate, server, page, fuel) == [e] + rest;
      assert ScanFrom(startDate, server, acc, page, fuel) == r;
    }

    /** The loop's running form agrees with the exchanges the search makes, for
        every accumulator, start page and budget. */
    lemma {:induction false} ScanFromTrace(
      startDate: Option<string>, server: Request -> Response<SearchPage>, acc: seq<Asset>, page: PageToken, fuel: nat)
      ensures AgreesWithTrace(startDate, server, acc, page, fuel)
      decreases fuel, 1
    {
      if fuel == 0 {
        ScanFromTraceEmpty(startDate, server, acc, page);
      } else {
        var q := SearchRequest(page, startDate);
        var e := Exchange(q, server(q));
        if !Continues(e) {
          ScanFromTraceLast(startDate, server, acc, page, fuel);
        } else {
          ScanFromTraceNext(startDate, server, acc, page, fuel);
        }
      }
    }

    /** All motion-photo assets, following the server's pages from page 1; the
        loop sends at most `fuel` requests. */
    method GetMpAssets(startDate: Option<string>, server: Request -> Response<SearchPage>, fuel: nat)
      returns (r: ScanOutcome)
      ensures r == ScanResult(Trace(startDate, server, FirstPage, fuel))
      ensures r.Returned? ==> r.assets != Some([])
      ensures r.Returned? && r.assets.Some? ==> forall a :: a in r.assets.value ==> IsMotionPhoto(a)
    {
      var motionPhotos: seq<Asset> := [];
      var page := FirstPage;
      var remaining := fuel;
      while true
        invariant ScanFrom(startDate, server, motionPhotos, page, remaining)
               == ScanFrom(startDate, server, [], FirstPage, fuel)
        decreases remaining
      {
        if remaining == 0 {
          r := FuelExhausted;
          break;
        }
        var response := server(SearchRequest(page, startDate));
        if response.status != 200 {
          r := Returned(MotionPhotosOrNone(motionPhotos));
          break;
        }
        motionPhotos := motionPhotos + MotionPhotos(response.payload.items);
        if !HasNextPage(response.payload.nextPage) {
          r := Returned(MotionPhotosOrNone(motionPhotos));
          break;
        }
        page := response.payload.nextPage.value;
        remaining := remaining - 1;
      }
      ScanFromTrace(startDate, server, [], FirstPage, fuel);
      assert [] + Collected(Trace(startDate, server, FirstPage, fuel)) == Collected(Trace(startDate, server, FirstPage, fuel));
    }

    /** Two pages, [A, B] then [C] with no next page, all motion photos: the
        search returns [A, B, C]. */
    lemma TwoPagesExample(a: Asset, b: Asset, c: Asset)
      requires IsMotionPhoto(a) && IsMotionPhoto(b) && IsMotionPhoto(c)
      ensures var server := (q: Request) =>
                if q.body == SearchBody(true, FirstPage, None) then Response(200, SearchPage([a, b], Some(PageNumber(2))))
                else Response(200, SearchPage([c], None));
              ScanResult(Trace(None, server, FirstPage, 2)) == Returned(Some([a, b, c]))
    {
      var server := (q: Request) =>
        if q.body == SearchBody(true, FirstPage, None) then Response(200, SearchPage([a, b], Some(PageNumber(2))))
        else Response(200, SearchPage([c], None));
      assert ScanFrom(None, server, [a, b], PageNumber(2), 1) == Returned(Some([a, b, c])) by {
        assert server(SearchRequest(PageNumber(2), None)) == Response(200, SearchPage([c], None));
        assert MotionPhotos([c]) == [c];
        assert [a, b] + [c] == [a, b, c];
      }
      assert ScanFrom(None, server, [], FirstPage, 2) == Returned(Some([a, b, c])) by {
        assert server(SearchRequest(FirstPage, None)) == Response(200, SearchPage([a, b], Some(PageNumber(2))));
        assert MotionPhotos([a, b]) == [a, b] by {
          assert [a, b][1..] == [b];
        }
        assert [] + [a, b] == [a, b];
      }
      ScanFromTrace(None, server, [], FirstPage, 2);
      var t := Trace(None, server, FirstPage, 2);
      assert [] + Collected(t) == Collected(t);
    }

    /** Page 1 gives [A] and names page 2, which fails with 500: the search
        returns [A] and does not fail. */
    lemma FailingSecondPageExample(a: Asset)
      requires IsMotionPhoto(a)
      ensures var server := (q: Request) =>
                if q.body == SearchBody(true, FirstPage, None) then Response(200, SearchPage([a], Some(PageNumber(2))))
                else Response(500, SearchPage([], None));
              ScanResult(Trace(None, server, FirstPage, 2)) == Returned(Some([a]))
    {
      var server := (q: Request) =>
        if q.body == SearchBody(true, FirstPage, None) then Response(200, SearchPage([a], Some(PageNumber(2))))
        else Response(500, SearchPage([], None));
      assert ScanFrom(None, server, [a], PageNumber(2), 1) == Returned(Some([a])) by {
        assert server(SearchRequest(PageNumber(2), None)).status == 500;
      }
      assert ScanFrom(None, server, [], FirstPage, 2) == Returned(Some([a])) by {
        assert server(SearchRequest(FirstPage, None)) == Response(200, SearchPage([a], Some(PageNumber(2))));
        assert MotionPhotos([a]) == [a];
        assert [] + [a] == [a];
      }
      ScanFromTrace(None, server, [], FirstPage, 2);
      var t := Trace(None, server, FirstPage, 2);
      assert [] + Collected(t) == Collected(t);
    }

    /** An item whose live video is null is dropped from the page it is on. */
    lemma NullLiveVideoExample(a: Asset, p: Asset, b: Asset)
      requires IsMotionPhoto(a) && !IsMotionPhoto(p) && IsMotionPhoto(b)
      ensures var server := (q: Request) => Response(200, SearchPage([a, p, b], None));
              ScanResult(Trace(None, server, FirstPage, 1)) == Returned(Some([a, b]))
    {
      var server := (q: Request) => Response(200, SearchPage([a, p, b], None));
      assert ScanFrom(None, server, [], FirstPage, 1) == Returned(Some([a, b])) by {
        assert server(SearchRequest(FirstPage, None)) == Response(200, SearchPage([a, p, b], None));
        assert MotionPhotos([a, p, b]) == [a, b] by {
          assert [a, p, b][1..] == [p, b];
          assert [p, b][1..] == [b];
          assert MotionPhotos([b]) == [b];
          assert MotionPhotos([p, b]) == [b];
        }
        assert [] + [a, b] == [a, b];
      }
      ScanFromTrace(None, server, [], FirstPage, 1);
      var t := Trace(None, server, FirstPage, 1);
      assert [] + Collected(t) == Collected(t);
    }
  }
}
