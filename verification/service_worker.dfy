/**
 * The service worker of the web client (`public/sw.js`): which requests it
 * answers cache-first, which caches survive activation, and when a network
 * response is stored. The Cache API is a map from request URL to stored
 * response; the network is a parameter giving the outcome of `fetch`.
 */
module ServiceWorker {
  import opened Common
  import opened Text

  const MEDIA_CACHE := "ai-library-media-v1"
  const VIDEO_PREFIX := "/videos/"
  const AUDIO_PREFIX := "/audio/"

  /** A request as the handler sees it: its method (`verb`), its URL's origin and path, and whether it carries a `Range` header. */
  datatype Request = Request(verb: string, url: string, origin: string, pathname: string, hasRange: bool)

  datatype Route = PassThrough | CacheFirst

  predicate IsMediaPath(pathname: string) {
    StartsWith(pathname, VIDEO_PREFIX) || StartsWith(pathname, AUDIO_PREFIX)
  }

  /**
   * The `fetch` listener: a request is answered cache-first only when it is
   * a GET without a `Range` header, to this worker's origin, for a path
   * under "/videos/" or "/audio/"; everything else goes to the network
   * untouched.
   */
  function RouteOf(req: Request, selfOrigin: string): (r: Route)
    ensures req.verb != "GET" ==> r == PassThrough
    ensures req.hasRange ==> r == PassThrough
    ensures req.origin != selfOrigin ==> r == PassThrough
    ensures !IsMediaPath(req.pathname) ==> r == PassThrough
    ensures req.verb == "GET" && !req.hasRange && req.origin == selfOrigin && IsMediaPath(req.pathname) ==> r == CacheFirst
  {
    if req.verb != "GET" then PassThrough
    else if req.hasRange then PassThrough
    else
      var isSameOrigin := req.origin == selfOrigin;
      var isMediaRequest := StartsWith(req.pathname, VIDEO_PREFIX) || StartsWith(req.pathname, AUDIO_PREFIX);
      if isSameOrigin && isMediaRequest then CacheFirst else PassThrough
  }

  // ------------------------------------------------------------- activate

  /** The cache names `activate` deletes: every one but the media cache, in order. */
  function Doomed(names: seq<string>): (r: seq<string>)
    ensures forall i :: 0 <= i < |r| ==> r[i] != MEDIA_CACHE && r[i] in names
    ensures forall n :: n in names && n != MEDIA_CACHE ==> n in r
    ensures |r| <= |names|
  {
    if names == [] then []
    else (if names[0] != MEDIA_CACHE then [names[0]] else []) + Doomed(names[1..])
  }

  /** The cache names left after `activate`. */
  function Survivors(names: seq<string>): (r: seq<string>)
    ensures forall i :: 0 <= i < |r| ==> r[i] == MEDIA_CACHE
    ensures MEDIA_CACHE in names <==> MEDIA_CACHE in r
  {
    if names == [] then []
    else (if names[0] == MEDIA_CACHE then [names[0]] else []) + Survivors(names[1..])
  }

  /** Activation loses no name and invents none: the deleted and the surviving names together are the names there were. */
  lemma {:induction false} ActivatePartitions(names: seq<string>)
    ensures multiset(Doomed(names)) + multiset(Survivors(names)) == multiset(names)
  {
    if names != [] {
      var head, rest := names[0], names[1..];
      ActivatePartitions(rest);
      assert names == [head] + rest;
      var d := if head != MEDIA_CACHE then [head] else [];
      var s := if head == MEDIA_CACHE then [head] else [];
      assert Doomed(names) == d + Doomed(rest);
      assert Survivors(names) == s + Survivors(rest);
      assert multiset(d) + multiset(s) == multiset([head]);
    }
  }

  // ------------------------------------------------------------ cacheFirst

  datatype Response = Response(status: int, body: string)

  /** `response.ok`: a status in 200..299. */
  predicate IsOk(r: Response) {
    200 <= r.status <= 299
  }

  datatype Network = Responded(response: Response) | NetworkError

  /** What the page receives: a stored response, a network response, or a rejected promise. */
  datatype Served = FromCache(response: Response) | FromNetwork(response: Response) | Failed

  /**
   * `cacheFirst(request)`: a stored response is returned as it is and the
   * network is not consulted. Otherwise the network's response is returned,
   * and stored only when it is ok with status exactly 200 (so a partial 206
   * is never stored); a network error rejects and stores nothing.
   */
  function CacheFirstServe(cache: map<string, Response>, url: string, net: Network): (r: (Served, map<string, Response>))
    ensures url in cache ==> r == (FromCache(cache[url]), cache)
    ensures url !in cache && net.NetworkError? ==> r == (Failed, cache)
    ensures url !in cache && net.Responded? ==> r.0 == FromNetwork(net.response)
    ensures url !in cache && net.Responded? ==>
              r.1 == (if IsOk(net.response) && net.response.status == 200 then cache[url := net.response] else cache)
    ensures forall u | u != url :: (u in r.1 <==> u in cache) && (u in cache ==> r.1[u] == cache[u])
  {
    if url in cache then (FromCache(cache[url]), cache)
    else match net
      case NetworkError => (Failed, cache)
      case Responded(resp) =>
        (FromNetwork(resp), if IsOk(resp) && resp.status == 200 then cache[url := resp] else cache)
  }

  /** A stored entry is only ever a 200 response: the cache stays free of partial and error responses. */
  predicate OnlyComplete(cache: map<string, Response>) {
    forall u | u in cache :: cache[u].status == 200
  }

  lemma CacheFirstKeepsOnlyComplete(cache: map<string, Response>, url: string, net: Network)
    requires OnlyComplete(cache)
    ensures OnlyComplete(CacheFirstServe(cache, url, net).1)
  {
  }

  /**
   * After a 200 response was fetched for a URL, the next request for it is
   * answered from the cache with that same response, whatever the network
   * does then.
   */
  lemma SecondRequestServedFromCache(cache: map<string, Response>, url: string, resp: Response, later: Network)
    requires url !in cache && resp.status == 200
    ensures var first := CacheFirstServe(cache, url, Responded(resp));
            CacheFirstServe(first.1, url, later).0 == FromCache(resp)
  {
  }

  /** The whole `fetch` event: `None` when the worker does not respond and the browser fetches as usual. */
  function HandleFetch(cache: map<string, Response>, req: Request, selfOrigin: string, net: Network): (r: (Option<Served>, map<string, Response>))
    ensures RouteOf(req, selfOrigin) == PassThrough ==> r == (None, cache)
    ensures RouteOf(req, selfOrigin) == CacheFirst ==>
              var s := CacheFirstServe(cache, req.url, net);
              r == (Some(s.0), s.1)
  {
    match RouteOf(req, selfOrigin)
    case PassThrough => (None, cache)
    case CacheFirst =>
      var s := CacheFirstServe(cache, req.url, net);
      (Some(s.0), s.1)
  }

  /** A range request never reaches the cache, so it can neither be answered from it nor change it. */
  lemma RangeRequestsBypassCache(cache: map<string, Response>, req: Request, selfOrigin: string, net: Network)
    requires req.hasRange
    ensures HandleFetch(cache, req, selfOrigin, net) == (None, cache)
  {
  }
}
