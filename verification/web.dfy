/**
 * The expiring page cache of `0x02-redis_basic/web.py`.
 *
 * `cache_with_expiration(ttl)` looks the URL up under `cache:<url>` and returns a live,
 * non-empty cached page without calling the wrapped function; otherwise it calls it and
 * stores the result with SETEX. `count_accesses` bumps `count:<url>` and calls through.
 * `get_page` wears the cache outside the counter, so only cache misses are counted. The HTTP
 * request is the uninterpreted function `fetch`; each call of it is an `Invoke` event.
 */
module Web {
  import opened KeyValue

  /** The time-to-live `get_page` is decorated with. */
  const PageTtl: nat := 10

  function CacheKey(url: string): string {
    "cache:" + url
  }

  function CountKey(url: string): string {
    "count:" + url
  }

  /** Distinct URLs never share a cache entry or a counter, and no cache key is a count key. */
  lemma UrlKeysDistinct(a: string, b: string)
    ensures CacheKey(a) == CacheKey(b) <==> a == b
    ensures CountKey(a) == CountKey(b) <==> a == b
    ensures CacheKey(a) != CountKey(b)
  {
    if CacheKey(a) == CacheKey(b) {
      assert a == CacheKey(a)[6..] && b == CacheKey(b)[6..];
    }
    if CountKey(a) == CountKey(b) {
      assert a == CountKey(a)[6..] && b == CountKey(b)[6..];
    }
    assert CacheKey(a)[1] == 'a' && CountKey(b)[1] == 'o';
  }

  /** Python truthiness of what GET returned: present and non-empty. */
  predicate Truthy(v: Option<string>) {
    v.Some? && v.value != ""
  }

  /** The undecorated `get_page`: one call of `fetch`, which touches no key. */
  function Fetcher(fetch: string -> string, s: Store, url: string): Step<string> {
    Step([Invoke(url)], fetch(url))
  }

  /** `count_accesses`: INCR `count:<url>`, then call through. */
  function CountAccesses(wrapped: Op<string, string>, s: Store, url: string): Step<string> {
    var inner := wrapped(Exec(s, Incr(CountKey(url))), url);
    Step([Incr(CountKey(url))] + inner.events, inner.result)
  }

  /**
   * `cache_with_expiration(ttl)`: a truthy GET of `cache:<url>` is returned as it is;
   * otherwise call through and SETEX the result for `ttl`.
   */
  function CacheWithExpiration(ttl: nat, wrapped: Op<string, string>, s: Store, url: string): Step<string> {
    var cached := Lookup(s, CacheKey(url));
    if Truthy(cached) then Step([], cached.value)
    else
      var inner := wrapped(s, url);
      Step(inner.events + [SetEx(CacheKey(url), ttl, inner.result)], inner.result)
  }

  /** Which decorator is outermost. */
  datatype Order =
    | CacheOutside   // as `get_page` is written: cache_with_expiration(count_accesses(fetch))
    | CountOutside   // the other order: count_accesses(cache_with_expiration(fetch))

  /** One call of the page function decorated in the given order. */
  function PageStep(order: Order, fetch: string -> string, s: Store, url: string): (r: Step<string>)
    ensures order.CacheOutside? ==>
      if Truthy(Lookup(s, CacheKey(url))) then r == Step([], Lookup(s, CacheKey(url)).value)
      else r == Step([Incr(CountKey(url)), Invoke(url), SetEx(CacheKey(url), PageTtl, fetch(url))], fetch(url))
    ensures order.CountOutside? ==>
      if Truthy(Lookup(s, CacheKey(url))) then r == Step([Incr(CountKey(url))], Lookup(s, CacheKey(url)).value)
      else r == Step([Incr(CountKey(url)), Invoke(url), SetEx(CacheKey(url), PageTtl, fetch(url))], fetch(url))
  {
    var base := (t: Store, u: string) => Fetcher(fetch, t, u);
    match order
    case CacheOutside =>
      CacheWithExpiration(PageTtl, (t: Store, u: string) => CountAccesses(base, t, u), s, url)
    case CountOutside =>
      UrlKeysDistinct(url, url);
      CountAccesses((t: Store, u: string) => CacheWithExpiration(PageTtl, base, t, u), s, url)
  }

  /** The store after a page request, and the page returned. */
  datatype Page = Page(store: Store, body: string)

  /**
   * `get_page(url)`. A hit returns the cached page and changes nothing. A miss fetches once,
   * caches the page until `clock + PageTtl`, counts one access and returns the page. Either
   * way, no key but `cache:<url>` and `count:<url>` changes.
   */
  function GetPage(fetch: string -> string, s: Store, url: string): (r: Page)
    ensures Truthy(Lookup(s, CacheKey(url))) ==> r == Page(s, Lookup(s, CacheKey(url)).value)
    ensures !Truthy(Lookup(s, CacheKey(url))) ==>
      && r.body == fetch(url)
      && r.store == s.(strings := s.strings[CacheKey(url) := Entry(fetch(url), Some(s.clock + PageTtl))],
                       counters := s.counters[CountKey(url) := Count(s, CountKey(url)) + 1])
    ensures forall k :: k != CacheKey(url) && k != CountKey(url) ==> SameAt(s, r.store, k)
  {
    var step := PageStep(CacheOutside, fetch, s, url);
    UrlKeysDistinct(url, url);
    MissEventsEffect(s, fetch, url);
    Page(ExecAll(s, step.events), step.result)
  }

  /** The three commands of a cache miss, applied in order. */
  lemma MissEventsEffect(s: Store, fetch: string -> string, url: string)
    ensures ExecAll(s, [Incr(CountKey(url)), Invoke(url), SetEx(CacheKey(url), PageTtl, fetch(url))])
         == s.(strings := s.strings[CacheKey(url) := Entry(fetch(url), Some(s.clock + PageTtl))],
               counters := s.counters[CountKey(url) := Count(s, CountKey(url)) + 1])
  {
    var e0 := Incr(CountKey(url));
    var e1 := Invoke(url);
    var e2 := SetEx(CacheKey(url), PageTtl, fetch(url));
    var s1 := Exec(s, e0);
    var s2 := Exec(s1, e1);
    var s3 := Exec(s2, e2);
    assert [e0, e1, e2] == [e0] + ([e1] + ([e2] + []));
    ExecAllCons(s, e0, [e1] + ([e2] + []));
    ExecAllCons(s1, e1, [e2] + []);
    ExecAllCons(s2, e2, []);
  }

  /** A miss for `req` fetches `url` once if it is the same URL, and not at all otherwise. */
  lemma MissFetches(req: string, v: string, url: string)
    ensures Fetches([Incr(CountKey(req)), Invoke(req), SetEx(CacheKey(req), PageTtl, v)], url)
         == if req == url then 1 else 0
  {
    var es := [Incr(CountKey(req)), Invoke(req), SetEx(CacheKey(req), PageTtl, v)];
    assert es[1..] == [Invoke(req), SetEx(CacheKey(req), PageTtl, v)];
    assert es[1..][1..] == [SetEx(CacheKey(req), PageTtl, v)];
    assert es[1..][1..][1..] == [];
    assert Fetches(es[1..][1..], url) == 0;
    assert Fetches(es[1..], url) == if req == url then 1 else 0;
  }

  /** A request for one URL leaves the cache entry and the counter of every other URL alone. */
  lemma OtherUrlsUntouched(fetch: string -> string, s: Store, url: string, other: string)
    requires other != url
    ensures SameAt(s, GetPage(fetch, s, url).store, CacheKey(other))
    ensures SameAt(s, GetPage(fetch, s, url).store, CountKey(other))
  {
    UrlKeysDistinct(other, url);
    UrlKeysDistinct(url, other);
  }

  /**
   * An entry that has expired reads as absent, so the next request fetches again and the
   * new page lives for another full `PageTtl`.
   */
  lemma ExpiredEntryRefetched(fetch: string -> string, s: Store, url: string)
    requires CacheKey(url) in s.strings
    requires s.strings[CacheKey(url)].expiresAt.Some?
    requires s.strings[CacheKey(url)].expiresAt.value <= s.clock
    ensures Invoke(url) in PageStep(CacheOutside, fetch, s, url).events
    ensures var r := GetPage(fetch, s, url);
      && r.body == fetch(url)
      && r.store.strings[CacheKey(url)] == Entry(fetch(url), Some(s.clock + PageTtl))
      && Lookup(r.store, CacheKey(url)) == Some(fetch(url))
  {
  }

  // ---------------------------------------------------------------------------------------
  // Sequences of requests

  /** A request made `delay` time units after the previous one. */
  datatype Request = Request(delay: nat, url: string)

  /** The store after a run of requests, the pages returned and every event, in order. */
  datatype Session = Session(store: Store, pages: seq<string>, trace: seq<Event>)

  function TotalDelay(reqs: seq<Request>): nat {
    if reqs == [] then 0 else reqs[0].delay + TotalDelay(reqs[1..])
  }

  /** Serve `reqs` one after the other with the decorators in the given order. */
  function Browse(order: Order, fetch: string -> string, s: Store, reqs: seq<Request>): (r: Session)
    ensures |r.pages| == |reqs|
    ensures r.store.clock == s.clock + TotalDelay(reqs)
    decreases |reqs|
  {
    if reqs == [] then Session(s, [], [])
    else
      var t := Tick(s, reqs[0].delay);
      var step := PageStep(order, fetch, t, reqs[0].url);
      var rest := Browse(order, fetch, ExecAll(t, step.events), reqs[1..]);
      Session(rest.store, [step.result] + rest.pages, step.events + rest.trace)
  }

  /** How many times `fetch(url)` ran. */
  function Fetches(trace: seq<Event>, url: string): nat {
    if trace == [] then 0 else (if trace[0] == Invoke(url) then 1 else 0) + Fetches(trace[1..], url)
  }

  /** How many of the requests were for `url`. */
  function Requests(reqs: seq<Request>, url: string): nat {
    if reqs == [] then 0 else (if reqs[0].url == url then 1 else 0) + Requests(reqs[1..], url)
  }

  lemma {:induction false} FetchesAppend(a: seq<Event>, b: seq<Event>, url: string)
    ensures Fetches(a + b, url) == Fetches(a, url) + Fetches(b, url)
    decreases |a|
  {
    if a == [] {
      assert a + b == b;
    } else {
      assert (a + b)[0] == a[0] && (a + b)[1..] == a[1..] + b;
      FetchesAppend(a[1..], b, url);
    }
  }

  /** One request raises `count:<url>` by the number of fetches of `url` it caused. */
  lemma StepCountsFetches(fetch: string -> string, s: Store, req: string, url: string)
    ensures var step := PageStep(CacheOutside, fetch, s, req);
      Count(ExecAll(s, step.events), CountKey(url)) == Count(s, CountKey(url)) + Fetches(step.events, url)
  {
    UrlKeysDistinct(req, url);
    var step := PageStep(CacheOutside, fetch, s, req);
    if !Truthy(Lookup(s, CacheKey(req))) {
      MissEventsEffect(s, fetch, req);
      MissFetches(req, fetch(req), url);
    }
  }

  /**
   * With `get_page`'s order, `count:<url>` counts the fetches of `url`, not the requests:
   * over any run it rises by exactly the number of times `fetch(url)` ran.
   */
  lemma {:induction false} CountTracksFetches(fetch: string -> string, s: Store, reqs: seq<Request>, url: string)
    ensures var r := Browse(CacheOutside, fetch, s, reqs);
      Count(r.store, CountKey(url)) == Count(s, CountKey(url)) + Fetches(r.trace, url)
    decreases |reqs|
  {
    if reqs != [] {
      var t := Tick(s, reqs[0].delay);
      var step := PageStep(CacheOutside, fetch, t, reqs[0].url);
      var rest := Browse(CacheOutside, fetch, ExecAll(t, step.events), reqs[1..]);
      StepCountsFetches(fetch, t, reqs[0].url, url);
      CountTracksFetches(fetch, ExecAll(t, step.events), reqs[1..], url);
      FetchesAppend(step.events, rest.trace, url);
    }
  }

  /** With the other order, `count:<url>` counts every request for `url`, hit or miss. */
  lemma {:induction false} CountOutsideTracksRequests(fetch: string -> string, s: Store, reqs: seq<Request>, url: string)
    ensures Count(Browse(CountOutside, fetch, s, reqs).store, CountKey(url)) == Count(s, CountKey(url)) + Requests(reqs, url)
    decreases |reqs|
  {
    if reqs != [] {
      var t := Tick(s, reqs[0].delay);
      var req := reqs[0].url;
      var step := PageStep(CountOutside, fetch, t, req);
      UrlKeysDistinct(req, url);
      if Truthy(Lookup(t, CacheKey(req))) {
        assert step.events == [Incr(CountKey(req))];
        ExecAllCons(t, Incr(CountKey(req)), []);
      } else {
        MissEventsEffect(t, fetch, req);
      }
      CountOutsideTracksRequests(fetch, ExecAll(t, step.events), reqs[1..], url);
    }
  }

  /** `cache:<url>` holds the non-empty page `v`, to be served until time `until`. */
  predicate CachedUntil(s: Store, url: string, v: string, until: nat) {
    && CacheKey(url) in s.strings
    && s.strings[CacheKey(url)] == Entry(v, Some(until))
    && v != ""
  }

  /**
   * While a non-empty page is cached, every request made before it expires is served from
   * the cache: `fetch(url)` does not run and every request for `url` gets `v`.
   */
  lemma {:induction false} NoRefetchWithinTtl(fetch: string -> string, s: Store, reqs: seq<Request>,
                                               url: string, v: string, until: nat)
    requires CachedUntil(s, url, v, until)
    requires s.clock + TotalDelay(reqs) < until
    ensures var r := Browse(CacheOutside, fetch, s, reqs);
      && Fetches(r.trace, url) == 0
      && (forall i :: 0 <= i < |reqs| && reqs[i].url == url ==> r.pages[i] == v)
    decreases |reqs|
  {
    if reqs != [] {
      var t := Tick(s, reqs[0].delay);
      var req := reqs[0].url;
      var step := PageStep(CacheOutside, fetch, t, req);
      var s1 := ExecAll(t, step.events);
      var rest := Browse(CacheOutside, fetch, s1, reqs[1..]);
      var r := Browse(CacheOutside, fetch, s, reqs);
      UrlKeysDistinct(req, url);
      if req == url {
        assert Truthy(Lookup(t, CacheKey(url)));
        assert step == Step([], v);
      } else if !Truthy(Lookup(t, CacheKey(req))) {
        MissEventsEffect(t, fetch, req);
        MissFetches(req, fetch(req), url);
      }
      assert CachedUntil(s1, url, v, until);
      NoRefetchWithinTtl(fetch, s1, reqs[1..], url, v, until);
      FetchesAppend(step.events, rest.trace, url);
      forall i | 0 <= i < |reqs| && reqs[i].url == url
        ensures r.pages[i] == v
      {
        if i > 0 {
          assert r.pages[i] == rest.pages[i - 1] && reqs[i] == reqs[1..][i - 1];
        }
      }
    }
  }

  /**
   * Requests for one URL whose page is not empty, all within one time-to-live of the first,
   * which misses: `fetch` runs exactly once, the counter rises by one, and every request gets
   * the fetched page.
   */
  lemma OneFetchPerWindow(fetch: string -> string, s: Store, reqs: seq<Request>, url: string)
    requires |reqs| > 0 && forall i :: 0 <= i < |reqs| ==> reqs[i].url == url
    requires fetch(url) != ""
    requires !Truthy(Lookup(Tick(s, reqs[0].delay), CacheKey(url)))
    requires TotalDelay(reqs[1..]) < PageTtl
    ensures var r := Browse(CacheOutside, fetch, s, reqs);
      && Fetches(r.trace, url) == 1
      && Count(r.store, CountKey(url)) == Count(s, CountKey(url)) + 1
      && forall i :: 0 <= i < |reqs| ==> r.pages[i] == fetch(url)
  {
    var t := Tick(s, reqs[0].delay);
    var step := PageStep(CacheOutside, fetch, t, url);
    var s1 := ExecAll(t, step.events);
    var rest := Browse(CacheOutside, fetch, s1, reqs[1..]);
    var r := Browse(CacheOutside, fetch, s, reqs);
    MissEventsEffect(t, fetch, url);
    UrlKeysDistinct(url, url);
    assert CachedUntil(s1, url, fetch(url), t.clock + PageTtl);
    NoRefetchWithinTtl(fetch, s1, reqs[1..], url, fetch(url), t.clock + PageTtl);
    MissFetches(url, fetch(url), url);
    FetchesAppend(step.events, rest.trace, url);
    CountTracksFetches(fetch, s, reqs, url);
    forall i | 0 <= i < |reqs|
      ensures r.pages[i] == fetch(url)
    {
      if i > 0 {
        assert r.pages[i] == rest.pages[i - 1] && reqs[i] == reqs[1..][i - 1];
      }
    }
  }

  /** A request that is not a miss for `url` does not fetch it, and one for another URL leaves its entry alone. */
  lemma StepLeavesUrl(fetch: string -> string, t: Store, req: string, url: string)
    requires req != url || Truthy(Lookup(t, CacheKey(url)))
    ensures var step := PageStep(CacheOutside, fetch, t, req);
      && Fetches(step.events, url) == 0
      && (req != url ==> Lookup(ExecAll(t, step.events), CacheKey(url)) == Lookup(t, CacheKey(url)))
  {
    UrlKeysDistinct(req, url);
    if !Truthy(Lookup(t, CacheKey(req))) {
      MissEventsEffect(t, fetch, req);
      MissFetches(req, fetch(req), url);
    }
  }

  /** An entry that does not read back as a non-empty page now does not later either. */
  lemma StaysUncached(s: Store, d: nat, key: string)
    requires !Truthy(Lookup(s, key))
    ensures !Truthy(Lookup(Tick(s, d), key))
  {
  }

  /**
   * Requests for any mix of URLs, all made before `start + PageTtl`, with `url`'s page not
   * empty: `fetch(url)` runs at most once, and exactly once when `url` is requested and no
   * live, non-empty page for it is cached at the outset.
   */
  lemma {:induction false} AtMostOneFetchFrom(fetch: string -> string, s: Store, reqs: seq<Request>,
                                               url: string, start: nat)
    requires fetch(url) != ""
    requires start <= s.clock && s.clock + TotalDelay(reqs) < start + PageTtl
    ensures var r := Browse(CacheOutside, fetch, s, reqs);
      && Fetches(r.trace, url) <= 1
      && (!Truthy(Lookup(s, CacheKey(url))) && Requests(reqs, url) > 0 ==> Fetches(r.trace, url) == 1)
    decreases |reqs|
  {
    if reqs != [] {
      var t := Tick(s, reqs[0].delay);
      var req := reqs[0].url;
      var step := PageStep(CacheOutside, fetch, t, req);
      var s1 := ExecAll(t, step.events);
      var rest := Browse(CacheOutside, fetch, s1, reqs[1..]);
      assert Browse(CacheOutside, fetch, s, reqs).trace == step.events + rest.trace;
      FetchesAppend(step.events, rest.trace, url);
      if req == url && !Truthy(Lookup(t, CacheKey(url))) {
        UrlKeysDistinct(url, url);
        MissEventsEffect(t, fetch, url);
        MissFetches(url, fetch(url), url);
        assert CachedUntil(s1, url, fetch(url), t.clock + PageTtl);
        NoRefetchWithinTtl(fetch, s1, reqs[1..], url, fetch(url), t.clock + PageTtl);
      } else {
        StepLeavesUrl(fetch, t, req, url);
        AtMostOneFetchFrom(fetch, s1, reqs[1..], url, start);
        if !Truthy(Lookup(s, CacheKey(url))) {
          StaysUncached(s, reqs[0].delay, CacheKey(url));
        }
      }
    }
  }

  /**
   * Within one time-to-live, whatever other URLs are requested in between and whether or not
   * a cached page expires on the way, a non-empty page is fetched at most once; exactly once
   * if it is requested and not cached at the start.
   */
  lemma FetchAtMostOncePerWindow(fetch: string -> string, s: Store, reqs: seq<Request>, url: string)
    requires fetch(url) != ""
    requires TotalDelay(reqs) < PageTtl
    ensures var r := Browse(CacheOutside, fetch, s, reqs);
      && Fetches(r.trace, url) <= 1
      && (!Truthy(Lookup(s, CacheKey(url))) && Requests(reqs, url) > 0 ==> Fetches(r.trace, url) == 1)
  {
    AtMostOneFetchFrom(fetch, s, reqs, url, s.clock);
  }

  /**
   * An empty page is falsy, so it is never served from the cache: when `fetch(url)` is empty,
   * every request for `url` fetches again, however soon it follows the last.
   */
  lemma {:induction false} EmptyPageAlwaysRefetched(fetch: string -> string, s: Store, reqs: seq<Request>, url: string)
    requires fetch(url) == ""
    requires !Truthy(Lookup(s, CacheKey(url)))
    ensures Fetches(Browse(CacheOutside, fetch, s, reqs).trace, url) == Requests(reqs, url)
    decreases |reqs|
  {
    if reqs != [] {
      var t := Tick(s, reqs[0].delay);
      var req := reqs[0].url;
      var step := PageStep(CacheOutside, fetch, t, req);
      var s1 := ExecAll(t, step.events);
      var rest := Browse(CacheOutside, fetch, s1, reqs[1..]);
      UrlKeysDistinct(req, url);
      if !Truthy(Lookup(t, CacheKey(req))) {
        MissEventsEffect(t, fetch, req);
        MissFetches(req, fetch(req), url);
      }
      StaysUncached(s, reqs[0].delay, CacheKey(url));
      EmptyPageAlwaysRefetched(fetch, s1, reqs[1..], url);
      FetchesAppend(step.events, rest.trace, url);
    }
  }

  /**
   * Three requests for "a" within one second, nothing cached, a non-empty page: as
   * `get_page` is decorated the page is fetched once and counted once; with the counter
   * outside it would still be fetched once but counted three times.
   */
  lemma ThreeRequestsOneFetch(fetch: string -> string, s: Store)
    requires fetch("a") != ""
    requires !Truthy(Lookup(s, CacheKey("a")))
    ensures var reqs := [Request(0, "a"), Request(0, "a"), Request(1, "a")];
      && Fetches(Browse(CacheOutside, fetch, s, reqs).trace, "a") == 1
      && Count(Browse(CacheOutside, fetch, s, reqs).store, CountKey("a")) == Count(s, CountKey("a")) + 1
      && Count(Browse(CountOutside, fetch, s, reqs).store, CountKey("a")) == Count(s, CountKey("a")) + 3
  {
    var reqs := [Request(0, "a"), Request(0, "a"), Request(1, "a")];
    assert reqs[1..] == [Request(0, "a"), Request(1, "a")];
    assert reqs[1..][1..] == [Request(1, "a")];
    assert reqs[1..][1..][1..] == [];
    assert TotalDelay(reqs[1..][1..]) == 1;
    assert TotalDelay(reqs[1..]) == 1;
    assert Tick(s, 0) == s;
    OneFetchPerWindow(fetch, s, reqs, "a");
    CountOutsideTracksRequests(fetch, s, reqs, "a");
  }
}
