/**
 * The offline caching service worker (sw.js).
 *
 * The browser's Cache Storage is the state: an ordered list of named caches
 * (in creation order, the order in which caches.match searches them) and,
 * for each name, a map from request URL to stored response. The network is
 * an input: each fetch event is handed the result the network would give.
 */
module OfflineCache {
  import opened Wrappers
  import opened Text

  const CACHE_NAME: string := "kokoro-clinic-v2"
  const OFFLINE_URL: string := "/404.html"

  /** The precache manifest, as root-relative paths. */
  const PRECACHE_URLS: seq<string> := [
    "/",
    "/index.html",
    "/css/style.css",
    "/js/main.js",
    "/images/hero-bg.jpg",
    "/images/about-clinic.jpg",
    "/images/doctor-yamada.jpg",
    "/images/staff-nurse.jpg",
    "/images/staff-psychologist.jpg",
    "/images/staff-receptionist.jpg",
    "/images/gallery-waiting.jpg",
    "/images/gallery-exam.jpg",
    "/images/gallery-reception.jpg",
    "/images/gallery-exterior.jpg",
    "/images/gallery-hallway.jpg",
    "/images/service-counseling.jpg",
    "/manifest.json",
    "/images/favicon.svg",
    "/404.html"
  ]

  /** A response snapshot; clone() is a copy of this value. */
  datatype Response = Response(status: int, statusText: string, body: string) {
    /** Response.ok: the status is in the range 200-299. */
    predicate Ok() { 200 <= status <= 299 }
  }

  /** new Response('', { status: 408, statusText: 'Offline' }) */
  const OFFLINE_RESPONSE: Response := Response(408, "Offline", "")

  /** The parts of an intercepted request the worker looks at: `verb` is
      request.method, `url` is request.url, and `accept` is
      headers.get('Accept'), None when the header is absent. */
  datatype Request = Request(verb: string, url: string, accept: Option<string>)

  /** What fetch(request) gives: a response (of any status) or a rejection. */
  datatype NetResult = Fetched(response: Response) | NetworkFailure

  /** The strategy the fetch handler picks for a request. */
  datatype Strategy = PassThrough | FontCacheFirst | HtmlNetworkFirst | AssetCacheFirst

  /** What the page receives from one fetch event: NotIntercepted when
      respondWith is never called (the browser fetches on its own), a
      response, a rejected promise, or a promise resolved with undefined
      (both of the last two are network errors for the page). */
  datatype FetchOutcome = NotIntercepted | Respond(response: Response) | Rejected | RespondUndefined

  /** One named cache: request URL to stored response. */
  type Store = map<string, Response>

  // ---------------------------------------------------------------------
  // Routing
  // ---------------------------------------------------------------------

  /** A plain substring test on the whole URL, not a host comparison. */
  predicate IsFontUrl(url: string) {
    Contains(url, "fonts.googleapis.com") || Contains(url, "fonts.gstatic.com")
  }

  /** headers.get('Accept') && headers.get('Accept').includes('text/html') */
  predicate AcceptsHtml(accept: Option<string>) {
    accept.Some? && accept.value != "" && Contains(accept.value, "text/html")
  }

  /** The fetch handler's rules in order, first match wins. */
  function Route(req: Request): (s: Strategy)
    ensures s == PassThrough <==> req.verb != "GET"
    ensures s == FontCacheFirst <==> req.verb == "GET" && IsFontUrl(req.url)
    ensures s == HtmlNetworkFirst <==> req.verb == "GET" && !IsFontUrl(req.url) && AcceptsHtml(req.accept)
    ensures s == AssetCacheFirst <==> req.verb == "GET" && !IsFontUrl(req.url) && !AcceptsHtml(req.accept)
  {
    if req.verb != "GET" then PassThrough
    else if IsFontUrl(req.url) then FontCacheFirst
    else if AcceptsHtml(req.accept) then HtmlNetworkFirst
    else AssetCacheFirst
  }

  /** A GET whose URL mentions a font host anywhere (even in its query) is
      served cache-first, whatever its Accept header says. */
  lemma FontHostWins(before: string, host: string, after: string, accept: Option<string>)
    requires host == "fonts.googleapis.com" || host == "fonts.gstatic.com"
    ensures Route(Request("GET", before + host + after, accept)) == FontCacheFirst
  {
    ContainsInside(before, host, after);
  }

  /** Any other GET whose Accept header mentions text/html goes to the network first. */
  lemma HtmlAcceptGoesToNetwork(url: string, before: string, after: string)
    requires !IsFontUrl(url)
    ensures Route(Request("GET", url, Some(before + "text/html" + after))) == HtmlNetworkFirst
  {
    ContainsInside(before, "text/html", after);
  }

  // ---------------------------------------------------------------------
  // Cache Storage as values
  // ---------------------------------------------------------------------

  predicate Distinct(names: seq<string>) {
    forall i, j :: 0 <= i < j < |names| ==> names[i] != names[j]
  }

  /** The name list and the map of caches agree. */
  predicate Consistent(order: seq<string>, caches: map<string, Store>) {
    && Distinct(order)
    && (forall n :: n in caches ==> n in order)
    && (forall n :: n in order ==> n in caches)
  }

  /** caches.match(url): the entry of the first cache, in creation order, that has one. */
  function MatchIn(order: seq<string>, caches: map<string, Store>, url: string): (r: Option<Response>)
    ensures r.None? <==> forall i :: 0 <= i < |order| && order[i] in caches ==> url !in caches[order[i]]
    ensures r.Some? ==> exists i :: && 0 <= i < |order| && order[i] in caches && url in caches[order[i]]
                                    && r.value == caches[order[i]][url]
                                    && forall j :: 0 <= j < i && order[j] in caches ==> url !in caches[order[j]]
    decreases |order|
  {
    if order == [] then None
    else if order[0] in caches && url in caches[order[0]] then Some(caches[order[0]][url])
    else
      var r := MatchIn(order[1..], caches, url);
      assert forall i :: 1 <= i < |order| ==> order[i] == order[1..][i - 1];
      r
  }

  /** `names` with every occurrence of `x` removed, the rest in order. */
  function Without(names: seq<string>, x: string): (r: seq<string>)
    ensures forall n :: n in r <==> n in names && n != x
    ensures Distinct(names) ==> Distinct(r)
    ensures |r| <= |names|
    decreases |names|
  {
    if names == [] then []
    else
      var rest := Without(names[1..], x);
      assert Distinct(names) ==> names[0] !in names[1..];
      if names[0] == x then rest else [names[0]] + rest
  }

  /** Two different names cannot both be x. */
  lemma TwoDistinctNames(names: seq<string>, x: string)
    requires Distinct(names) && |names| >= 2
    ensures exists n :: n in names && n != x
  {
    if names[0] == x {
      assert names[1] in names && names[1] != x;
    } else {
      assert names[0] in names;
    }
  }

  /** A repetition-free list holding only x is [] or [x]. */
  lemma {:induction false} OnlyName(names: seq<string>, x: string)
    requires Distinct(names)
    requires forall n :: n in names ==> n == x
    ensures names == [] || names == [x]
  {
    if |names| >= 2 {
      TwoDistinctNames(names, x);
      assert false;
    } else if |names| == 1 {
      assert names[0] in names;
    }
  }

  /** The request URLs of the manifest: paths resolved against the origin. */
  function PrecacheKeys(origin: string): (keys: seq<string>)
    ensures |keys| == |PRECACHE_URLS|
    ensures forall i :: 0 <= i < |keys| ==> keys[i] == origin + PRECACHE_URLS[i]
  {
    seq(|PRECACHE_URLS|, i requires 0 <= i < |PRECACHE_URLS| => origin + PRECACHE_URLS[i])
  }

  /** cache.addAll(urls): every URL fetched with an ok response, or nothing stored. */
  function AddAll(urls: seq<string>, network: string -> NetResult): (r: Option<Store>)
    ensures r.Some? <==> forall i :: 0 <= i < |urls| ==> network(urls[i]).Fetched? && network(urls[i]).response.Ok()
    ensures r.Some? ==> r.value.Keys == set u | u in urls
    ensures r.Some? ==> forall i :: 0 <= i < |urls| ==> r.value[urls[i]] == network(urls[i]).response
    decreases |urls|
  {
    if urls == [] then Some(map[])
    else
      var first := network(urls[0]);
      assert forall i :: 1 <= i < |urls| ==> urls[i] == urls[1..][i - 1];
      match AddAll(urls[1..], network)
      case None => None
      case Some(rest) =>
        if first.Fetched? && first.response.Ok() then Some(rest[urls[0] := first.response]) else None
  }

  /** addAll over the manifest succeeds exactly when every manifest path is
      fetched ok, and then holds each path's response. */
  lemma PrecacheBatch(origin: string, network: string -> NetResult)
    ensures var batch := AddAll(PrecacheKeys(origin), network);
      && (batch.Some? <==> forall i :: 0 <= i < |PRECACHE_URLS| ==>
            network(origin + PRECACHE_URLS[i]).Fetched? && network(origin + PRECACHE_URLS[i]).response.Ok())
      && (batch.Some? ==> forall i :: 0 <= i < |PRECACHE_URLS| ==>
            && origin + PRECACHE_URLS[i] in batch.value
            && batch.value[origin + PRECACHE_URLS[i]] == network(origin + PRECACHE_URLS[i]).response)
  {
    var keys := PrecacheKeys(origin);
    var batch := AddAll(keys, network);
    assert forall i :: 0 <= i < |PRECACHE_URLS| ==> keys[i] in keys;
  }

  /** Storing under a name twice keeps only the second value. */
  lemma UpdateTwice(caches: map<string, Store>, name: string, first: Store, second: Store)
    ensures caches[name := first][name := second] == caches[name := second]
  {
  }

  /** The offline page is one of the precached paths. */
  lemma OfflinePageIsPrecached()
    ensures exists i :: 0 <= i < |PRECACHE_URLS| && PRECACHE_URLS[i] == OFFLINE_URL
  {
    assert PRECACHE_URLS[18] == OFFLINE_URL;
  }

  /** When exactly one cache in the order holds url, caches.match returns its entry. */
  lemma MatchSoleHolder(order: seq<string>, caches: map<string, Store>, url: string, k: nat)
    requires k < |order| && order[k] in caches && url in caches[order[k]]
    requires forall j :: 0 <= j < |order| && j != k && order[j] in caches ==> url !in caches[order[j]]
    ensures MatchIn(order, caches, url) == Some(caches[order[k]][url])
  {
    var r := MatchIn(order, caches, url);
    var i :| && 0 <= i < |order| && order[i] in caches && url in caches[order[i]]
             && r.value == caches[order[i]][url];
    assert i == k;
  }

  /** Opening `name` (creating it at the end if new) and storing url -> resp
      in it makes caches.match(url) give resp, provided no other cache holds url. */
  lemma PutThenMatch(order: seq<string>, caches: map<string, Store>, name: string,
                     url: string, resp: Response)
    requires Consistent(order, caches)
    requires forall n :: n in caches && n != name ==> url !in caches[n]
    ensures
      var order' := if name in caches then order else order + [name];
      var caches' := caches[name := (if name in caches then caches[name] else map[])[url := resp]];
      MatchIn(order', caches', url) == Some(resp)
  {
    var order' := if name in caches then order else order + [name];
    var caches' := caches[name := (if name in caches then caches[name] else map[])[url := resp]];
    assert name in order';
    var k :| 0 <= k < |order'| && order'[k] == name;
    assert Distinct(order');
    MatchSoleHolder(order', caches', url, k);
  }

  /** A miss followed by a store is a hit for the same response. */
  lemma MissThenPutHits(order: seq<string>, caches: map<string, Store>, name: string,
                        url: string, resp: Response)
    requires Consistent(order, caches)
    requires MatchIn(order, caches, url).None?
    ensures
      var order' := if name in caches then order else order + [name];
      var caches' := caches[name := (if name in caches then caches[name] else map[])[url := resp]];
      MatchIn(order', caches', url) == Some(resp)
  {
    forall n | n in caches && n != name ensures url !in caches[n] {
      var i :| 0 <= i < |order| && order[i] == n;
    }
    PutThenMatch(order, caches, name, url, resp);
  }

  // ---------------------------------------------------------------------
  // The worker
  // ---------------------------------------------------------------------

  class Worker {
    /** The origin the root-relative manifest paths resolve against. */
    const origin: string
    /** caches.keys(), in creation order. */
    var order: seq<string>
    /** The contents of each named cache. */
    var caches: map<string, Store>

    ghost predicate Valid()
      reads this
    {
      Consistent(order, caches)
    }

    /** The worker starts over whatever caches earlier versions left behind. */
    constructor (origin: string, priorOrder: seq<string>, priorCaches: map<string, Store>)
      requires Consistent(priorOrder, priorCaches)
      ensures Valid()
      ensures this.origin == origin && order == priorOrder && caches == priorCaches
    {
      this.origin := origin;
      order := priorOrder;
      caches := priorCaches;
    }

    function Match(url: string): Option<Response>
      reads this
    {
      MatchIn(order, caches, url)
    }

    function Entries(name: string): Store
      reads this
    {
      if name in caches then caches[name] else map[]
    }

    function OrderAfterOpen(name: string): seq<string>
      reads this
    {
      if name in caches then order else order + [name]
    }

    /** caches.open(name): creates an empty cache at the end when it is new. */
    method Open(name: string)
      requires Valid()
      modifies this
      ensures Valid()
      ensures order == old(OrderAfterOpen(name))
      ensures caches == old(caches)[name := old(Entries(name))]
    {
      if name !in caches {
        order := order + [name];
        caches := caches[name := map[]];
      }
    }

    /** caches.open(name).then(cache => cache.put(url, resp)): overwrites any entry for url. */
    method Put(name: string, url: string, resp: Response)
      requires Valid()
      modifies this
      ensures Valid()
      ensures order == old(OrderAfterOpen(name))
      ensures caches == old(caches)[name := old(Entries(name))[url := resp]]
    {
      Open(name);
      caches := caches[name := caches[name][url := resp]];
    }

    /** caches.delete(name): true when the cache existed. */
    method Delete(name: string) returns (existed: bool)
      requires Valid()
      modifies this
      ensures Valid()
      ensures existed <==> name in old(caches)
      ensures caches == old(caches) - {name}
      ensures order == Without(old(order), name)
    {
      existed := name in caches;
      order := Without(order, name);
      caches := caches - {name};
    }

    /** The install handler: open CACHE_NAME, then addAll the manifest. The
        install succeeds only when every manifest URL was fetched ok; the
        cache is created even when it fails. */
    method Install(network: string -> NetResult) returns (installed: bool)
      requires Valid()
      modifies this
      ensures Valid()
      ensures order == old(OrderAfterOpen(CACHE_NAME))
      ensures installed <==> forall i :: 0 <= i < |PRECACHE_URLS| ==>
        network(origin + PRECACHE_URLS[i]).Fetched? && network(origin + PRECACHE_URLS[i]).response.Ok()
      ensures !installed ==> caches == old(caches)[CACHE_NAME := old(Entries(CACHE_NAME))]
      ensures installed ==> caches == old(caches)[CACHE_NAME := old(Entries(CACHE_NAME)) + AddAll(PrecacheKeys(origin), network).value]
      ensures installed ==> forall i :: 0 <= i < |PRECACHE_URLS| ==>
        && origin + PRECACHE_URLS[i] in caches[CACHE_NAME]
        && caches[CACHE_NAME][origin + PRECACHE_URLS[i]] == network(origin + PRECACHE_URLS[i]).response
    {
      ghost var prior := caches;
      Open(CACHE_NAME);
      var batch := AddAll(PrecacheKeys(origin), network);
      PrecacheBatch(origin, network);
      if batch.Some? {
        var entries := caches[CACHE_NAME] + batch.value;
        UpdateTwice(prior, CACHE_NAME, caches[CACHE_NAME], entries);
        caches := caches[CACHE_NAME := entries];
        installed := true;
      } else {
        installed := false;
      }
    }

    /** The activate handler: every cache whose name is not CACHE_NAME is deleted. */
    method Activate()
      requires Valid()
      modifies this
      ensures Valid()
      ensures forall n :: n in caches ==> n == CACHE_NAME
      ensures CACHE_NAME in caches <==> CACHE_NAME in old(caches)
      ensures CACHE_NAME in caches ==> caches[CACHE_NAME] == old(caches)[CACHE_NAME]
      ensures order == if CACHE_NAME in old(caches) then [CACHE_NAME] else []
    {
      var stale := Without(order, CACHE_NAME);
      for i := 0 to |stale|
        invariant Valid()
        invariant forall n :: n in caches <==> n in old(caches) && n !in stale[..i]
        invariant forall n :: n in caches ==> caches[n] == old(caches)[n]
      {
        assert stale[..i + 1] == stale[..i] + [stale[i]];
        var existed := Delete(stale[i]);
      }
      assert stale[..|stale|] == stale;
      OnlyName(order, CACHE_NAME);
    }

    /** The fetch handler, given what the network would answer for this request. */
    method HandleFetch(req: Request, net: NetResult) returns (out: FetchOutcome)
      requires Valid()
      modifies this
      ensures Valid()
      // non-GET: not intercepted, nothing changes
      ensures Route(req) == PassThrough ==> out == NotIntercepted && unchanged(this)
      // cache-first (fonts and other assets): a hit is returned as is
      ensures Route(req) in {FontCacheFirst, AssetCacheFirst} && old(Match(req.url)).Some? ==>
        out == Respond(old(Match(req.url)).value) && unchanged(this)
      // cache-first miss: the network's response is returned, and stored only when ok
      ensures Route(req) in {FontCacheFirst, AssetCacheFirst} && old(Match(req.url)).None? && net.Fetched? ==>
        && out == Respond(net.response)
        && (net.response.Ok() ==>
             && order == old(OrderAfterOpen(CACHE_NAME))
             && caches == old(caches)[CACHE_NAME := old(Entries(CACHE_NAME))[req.url := net.response]])
        && (!net.response.Ok() ==> unchanged(this))
      // cache-first miss offline: fonts get a synthetic 408, other assets the rejection
      ensures Route(req) == FontCacheFirst && old(Match(req.url)).None? && net.NetworkFailure? ==>
        out == Respond(OFFLINE_RESPONSE) && unchanged(this)
      ensures Route(req) == AssetCacheFirst && old(Match(req.url)).None? && net.NetworkFailure? ==>
        out == Rejected && unchanged(this)
      // network-first (HTML): any response is returned and stored, whatever its status
      ensures Route(req) == HtmlNetworkFirst && net.Fetched? ==>
        && out == Respond(net.response)
        && order == old(OrderAfterOpen(CACHE_NAME))
        && caches == old(caches)[CACHE_NAME := old(Entries(CACHE_NAME))[req.url := net.response]]
      // network-first offline: the cached page, else the offline page, else undefined
      ensures Route(req) == HtmlNetworkFirst && net.NetworkFailure? ==>
        && unchanged(this)
        && out == (if old(Match(req.url)).Some? then Respond(old(Match(req.url)).value)
                   else if old(Match(origin + OFFLINE_URL)).Some? then Respond(old(Match(origin + OFFLINE_URL)).value)
                   else RespondUndefined)
    {
      match Route(req)
      case PassThrough =>
        out := NotIntercepted;
      case FontCacheFirst =>
        var cached := Match(req.url);
        if cached.Some? {
          out := Respond(cached.value);
        } else if net.Fetched? {
          if net.response.Ok() {
            Put(CACHE_NAME, req.url, net.response);
          }
          out := Respond(net.response);
        } else {
          out := Respond(OFFLINE_RESPONSE);
        }
      case HtmlNetworkFirst =>
        if net.Fetched? {
          Put(CACHE_NAME, req.url, net.response);
          out := Respond(net.response);
        } else {
          var cached := Match(req.url);
          if cached.Some? {
            out := Respond(cached.value);
          } else {
            var offline := Match(origin + OFFLINE_URL);
            out := if offline.Some? then Respond(offline.value) else RespondUndefined;
          }
        }
      case AssetCacheFirst =>
        var cached := Match(req.url);
        if cached.Some? {
          out := Respond(cached.value);
        } else if net.Fetched? {
          if net.response.Ok() {
            Put(CACHE_NAME, req.url, net.response);
          }
          out := Respond(net.response);
        } else {
          out := Rejected;
        }
    }

    // -------------------------------------------------------------------
    // Sequences of events
    // -------------------------------------------------------------------

    /** An HTML page visited online and then offline shows, offline, the
        copy fetched online, provided no other cache holds that URL (which
        Activate guarantees, since it leaves CACHE_NAME alone). */
    method OnlineThenOffline(req: Request, page: Response) returns (online: FetchOutcome, offline: FetchOutcome)
      requires Valid()
      requires Route(req) == HtmlNetworkFirst
      requires forall n :: n in caches && n != CACHE_NAME ==> req.url !in caches[n]
      modifies this
      ensures Valid()
      ensures online == Respond(page) && offline == Respond(page)
    {
      PutThenMatch(order, caches, CACHE_NAME, req.url, page);
      online := HandleFetch(req, Fetched(page));
      offline := HandleFetch(req, NetworkFailure);
    }

    /** A cache-first request that was a hit, or a miss answered ok by the
        network, is answered the second time from the cache with the same
        response, whatever the network would say. */
    method RepeatCacheFirst(req: Request, first: NetResult, second: NetResult)
      returns (a: FetchOutcome, b: FetchOutcome)
      requires Valid()
      requires Route(req) in {FontCacheFirst, AssetCacheFirst}
      requires Match(req.url).Some? || (first.Fetched? && first.response.Ok())
      modifies this
      ensures Valid()
      ensures a.Respond? && b == a
    {
      if Match(req.url).None? {
        MissThenPutHits(order, caches, CACHE_NAME, req.url, first.response);
      }
      a := HandleFetch(req, first);
      b := HandleFetch(req, second);
    }

    /** After a successful install and an activation, an HTML request that
        fails on the network is answered with the stored copy of its URL if
        there is one, and otherwise with the precached offline page. */
    method OfflineAfterInstall(network: string -> NetResult, req: Request)
      returns (installed: bool, out: FetchOutcome)
      requires Valid()
      requires Route(req) == HtmlNetworkFirst
      modifies this
      ensures Valid()
      ensures installed ==> CACHE_NAME in caches && order == [CACHE_NAME]
      ensures installed ==> network(origin + OFFLINE_URL).Fetched?
      ensures installed ==> out == Respond(if req.url in caches[CACHE_NAME] then caches[CACHE_NAME][req.url]
                                           else network(origin + OFFLINE_URL).response)
    {
      installed := Install(network);
      Activate();
      assert PRECACHE_URLS[18] == OFFLINE_URL;
      out := HandleFetch(req, NetworkFailure);
    }
  }
}
