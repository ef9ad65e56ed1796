/**
 * `search_youtube_playlist`: a chain of guards that either gives up with `None` or
 * builds a `{title, url}` record from the first search result, behind an
 * `lru_cache(maxsize=128)` memo. The HTTP request and `response.json()` are one
 * outcome given by the `fetch` oracle of the configuration.
 */
module YouTube {
  import opened Wrappers
  import opened PyText
  import opened Dict
  import opened JsonValue
  import Lru

  /** `lru_cache(maxsize=128)`. */
  const CacheSize := 128
  /** Queries whose stripped length is below this are not sent. */
  const MinQueryLength := 5
  const PlaylistUrlPrefix := "https://www.youtube.com/playlist?list="

  /**
   * What `requests.get(...)` and `response.json()` came to: an exception (network error,
   * timeout), or a status code with the decoded body (`None` when the body is not JSON).
   */
  datatype HttpOutcome = RequestFailed | Response(status: int, body: Option<Json>)

  /** The `{"title": ..., "url": ...}` dict returned on success. */
  datatype Playlist = Playlist(title: Json, url: string)

  function PlaylistJson(p: Playlist): Json {
    JObject([("title", p.title), ("url", JString(p.url))])
  }

  /**
   * The process-wide inputs of the search: `YOUTUBE_API_KEY` (`None` when unset), the API
   * as a function of the `q` parameter sent, and how Python prints a non-string value.
   */
  datatype SearchConfig = SearchConfig(apiKey: Option<string>, fetch: string -> HttpOutcome, render: Json -> string)

  /** The `q` parameter a call sends, or `None` when a guard returns before any request. */
  function SentQuery(apiKey: Option<string>, query: string): (r: Option<string>)
    ensures r.None? <==> apiKey.None? || apiKey.value == [] || |Strip(query)| < MinQueryLength
    ensures r.Some? ==> r.value == Strip(query) && |r.value| >= MinQueryLength
  {
    if apiKey.None? || apiKey.value == [] then None
    else if query == [] || |Strip(query)| < MinQueryLength then None
    else Some(Strip(query))
  }

  /** The requests a call makes: none, or one with the stripped query. */
  function RequestsFor(cfg: SearchConfig, query: string): (r: seq<string>)
    ensures |r| <= 1
    ensures r == [] <==> SentQuery(cfg.apiKey, query).None?
  {
    match SentQuery(cfg.apiKey, query)
    case None => []
    case Some(q) => [q]
  }

  /** `item.get(outer, {}).get(inner)`: `JNull` when the inner key is absent. */
  function NestedGet(item: Json, outer: string, inner: string): (r: Result<Json, string>)
    ensures r.Failure? <==> !item.JObject? || !GetOr(item.fields, outer, JObject([])).JObject?
    ensures !item.JObject? ==> r == Failure(NoAttribute(item, "get"))
  {
    if !item.JObject? then Failure(NoAttribute(item, "get"))
    else
      var o := GetOr(item.fields, outer, JObject([]));
      if !o.JObject? then Failure(NoAttribute(o, "get"))
      else Success(GetOr(o.fields, inner, JNull))
  }

  /**
   * The part of the function after the `try` block, on the decoded body `data`. It runs
   * outside the `try`, so a body of the wrong shape raises instead of giving `None`.
   */
  function ReadItems(data: Json, render: Json -> string): (r: Result<Option<Playlist>, string>)
    ensures r.Success? && r.value.Some? ==>
              && Truthy(r.value.value.title)
              && |r.value.value.url| >= |PlaylistUrlPrefix|
              && r.value.value.url[..|PlaylistUrlPrefix|] == PlaylistUrlPrefix
  {
    if !data.JObject? then Failure(NoAttribute(data, "get"))
    else
      var items := GetOr(data.fields, "items", JArray([]));
      if !Truthy(items) then Success(None)
      else
        match First(items)
        case Failure(e) => Failure(e)
        case Success(item) =>
          match NestedGet(item, "id", "playlistId")
          case Failure(e) => Failure(e)
          case Success(playlistId) =>
            match NestedGet(item, "snippet", "title")
            case Failure(e) => Failure(e)
            case Success(title) =>
              if !Truthy(playlistId) || !Truthy(title) then Success(None)
              else
                Success(Some(Playlist(title, PlaylistUrlPrefix + PyStr(render, playlistId))))
  }

  /** The body of the `try` block and what follows it. */
  function ReadResponse(outcome: HttpOutcome, render: Json -> string): (r: Result<Option<Playlist>, string>)
    ensures r.Failure? ==> outcome.Response? && outcome.status == 200 && outcome.body.Some?
    ensures r.Success? && r.value.Some? ==>
              && outcome.Response? && outcome.status == 200 && outcome.body.Some?
              && Truthy(r.value.value.title)
              && |r.value.value.url| >= |PlaylistUrlPrefix|
              && r.value.value.url[..|PlaylistUrlPrefix|] == PlaylistUrlPrefix
  {
    match outcome
    case RequestFailed => Success(None)
    case Response(status, body) =>
      if status != 200 then Success(None)
      else
        match body
        case None => Success(None)
        case Some(data) => ReadItems(data, render)
  }

  /** A playlist search as its callers see it: a result, or the message of what it raised. */
  type Lookup = string -> Result<Option<Playlist>, string>

  /** `search_youtube_playlist(query)` without its cache. */
  function Search(cfg: SearchConfig, query: string): (r: Result<Option<Playlist>, string>)
    ensures SentQuery(cfg.apiKey, query).None? ==> r == Success(None)
    ensures r.Failure? || r.value.Some? ==>
              && SentQuery(cfg.apiKey, query).Some?
              && var o := cfg.fetch(SentQuery(cfg.apiKey, query).value);
              && o.Response? && o.status == 200 && o.body.Some?
  {
    match SentQuery(cfg.apiKey, query)
    case None => Success(None)
    case Some(q) => ReadResponse(cfg.fetch(q), cfg.render)
  }

  /**
   * A declarative reading of success: a dict body whose `items` is a non-empty list whose
   * first element is a dict with a truthy `id.playlistId` and a truthy `snippet.title`.
   */
  ghost predicate Announces(data: Json, render: Json -> string, p: Playlist) {
    && data.JObject?
    && Get(data.fields, "items").Some?
    && var items := Get(data.fields, "items").value;
    && items.JArray? && items.items != []
    && var item := items.items[0];
    && item.JObject?
    && Get(item.fields, "id").Some? && Get(item.fields, "id").value.JObject?
    && Get(item.fields, "snippet").Some? && Get(item.fields, "snippet").value.JObject?
    && var ids := Get(item.fields, "id").value.fields;
    && var snippet := Get(item.fields, "snippet").value.fields;
    && Get(ids, "playlistId").Some? && Truthy(Get(ids, "playlistId").value)
    && Get(snippet, "title").Some? && Truthy(Get(snippet, "title").value)
    && p == Playlist(Get(snippet, "title").value, PlaylistUrlPrefix + PyStr(render, Get(ids, "playlistId").value))
  }

  /** The guard chain finds a playlist exactly when the body announces one, and it is that one. */
  lemma ReadItemsFindsAnnounced(data: Json, render: Json -> string, p: Playlist)
    ensures ReadItems(data, render) == Success(Some(p)) <==> Announces(data, render, p)
  {
    if data.JObject? && Get(data.fields, "items").Some? {
      var items := Get(data.fields, "items").value;
      if items.JObject? || items.JString? {
        assert First(items).Failure? || !First(items).value.JObject?;
      }
    }
  }

  /** The API's own response shape never raises: it gives a playlist or `None`. */
  ghost predicate WellShaped(data: Json) {
    && data.JObject?
    && forall items :: Get(data.fields, "items") == Some(items) ==>
         && items.JArray?
         && forall item :: item in items.items ==>
              && item.JObject?
              && (forall v :: Get(item.fields, "id") == Some(v) ==> v.JObject?)
              && (forall v :: Get(item.fields, "snippet") == Some(v) ==> v.JObject?)
  }

  lemma WellShapedNeverRaises(data: Json, render: Json -> string)
    requires WellShaped(data)
    ensures ReadItems(data, render).Success?
  {
    var items := GetOr(data.fields, "items", JArray([]));
    if Truthy(items) {
      assert Get(data.fields, "items") == Some(items);
      assert items.items[0] in items.items;
    }
  }

  lemma ListHasNoGet(v: Json)
    requires v.JArray?
    ensures NoAttribute(v, "get") == "'list' object has no attribute 'get'"
  {
    assert "'" + "list" + "' object has no attribute '" + "get" + "'" == "'list' object has no attribute 'get'";
  }

  /** A 200 reply whose body is a JSON list, not a dict, raises `AttributeError`. */
  lemma ListBodyRaises(xs: seq<Json>, render: Json -> string)
    ensures ReadResponse(Response(200, Some(JArray(xs))), render) == Failure("'list' object has no attribute 'get'")
  {
    var data := JArray(xs);
    assert ReadItems(data, render) == Failure(NoAttribute(data, "get"));
    ListHasNoGet(data);
  }

  /** Every way the request can fail gives `None` and nothing is raised. */
  lemma FailedRequestGivesNone(cfg: SearchConfig, query: string)
    requires SentQuery(cfg.apiKey, query).Some?
    requires var outcome := cfg.fetch(SentQuery(cfg.apiKey, query).value);
             outcome.RequestFailed? || outcome.status != 200 || outcome.body.None?
    ensures Search(cfg, query) == Success(None)
  {
  }

  /** White space around a query changes neither the request nor the result. */
  lemma SearchIgnoresPadding(cfg: SearchConfig, pre: string, query: string, post: string)
    requires AllSpace(pre) && AllSpace(post)
    ensures SentQuery(cfg.apiKey, pre + query + post) == SentQuery(cfg.apiKey, query)
    ensures Search(cfg, pre + query + post) == Search(cfg, query)
  {
    StripPadded(pre, query, post);
  }

  /** The record returned on success holds the stripped query's first result. */
  lemma SearchSuccess(cfg: SearchConfig, query: string, p: Playlist)
    requires Search(cfg, query) == Success(Some(p))
    ensures SentQuery(cfg.apiKey, query) == Some(Strip(query))
    ensures exists data :: cfg.fetch(Strip(query)) == Response(200, Some(data)) && Announces(data, cfg.render, p)
  {
    var outcome := cfg.fetch(Strip(query));
    assert outcome.Response? && outcome.status == 200 && outcome.body.Some?;
    ReadItemsFindsAnnounced(outcome.body.value, cfg.render, p);
  }

  /** The uncached search as a function value. */
  function SearchOf(cfg: SearchConfig): Lookup {
    q => Search(cfg, q)
  }

  /** Every entry holds what the uncached call returns for its query. */
  ghost predicate Memoizes(cfg: SearchConfig, es: seq<(string, Option<Playlist>)>) {
    forall i :: 0 <= i < |es| ==> Search(cfg, es[i].0) == Success(es[i].1)
  }

  /** Moving an entry to the most recently used end keeps every entry correct. */
  lemma TouchMemoizes(cfg: SearchConfig, es: seq<(string, Option<Playlist>)>, i: nat)
    requires Memoizes(cfg, es) && i < |es|
    ensures Memoizes(cfg, Lru.Touch(es, i))
  {
    var r := Lru.Touch(es, i);
    forall j | 0 <= j < |r| ensures Search(cfg, r[j].0) == Success(r[j].1) {
      assert r[j] in multiset(es);
    }
  }

  /** Caching a returned value keeps every entry correct. */
  lemma AdmitMemoizes(cfg: SearchConfig, es: seq<(string, Option<Playlist>)>, query: string, v: Option<Playlist>)
    requires Memoizes(cfg, es) && |es| <= CacheSize && Search(cfg, query) == Success(v)
    ensures Memoizes(cfg, Lru.Admit(es, query, v, CacheSize))
  {
    var r := Lru.Admit(es, query, v, CacheSize);
    forall j | 0 <= j < |r| ensures Search(cfg, r[j].0) == Success(r[j].1) {
      if j < |r| - 1 {
        assert r[j] == (if |es| < CacheSize then es[j] else es[j + 1]);
      }
    }
  }

  /** The cache's entries: one `(query, result)` pair per cached call, least recently used first. */
  type Entries = seq<(string, Option<Playlist>)>

  /**
   * The entries after one call with `query`: a hit moves its entry to the most recently
   * used end; a miss caches a returned value (evicting the least recently used entry when
   * full) and caches nothing when the call raised.
   */
  function CallEntries(cfg: SearchConfig, es: Entries, query: string): (r: Entries)
    requires |es| <= CacheSize
    ensures |r| <= CacheSize
  {
    match Lru.Position(es, query)
    case Some(i) => Lru.Touch(es, i)
    case None =>
      match Search(cfg, query)
      case Success(v) => Lru.Admit(es, query, v, CacheSize)
      case Failure(_) => es
  }

  /** The requests one call sends: none on a hit, and at most the stripped query on a miss. */
  function CallRequests(cfg: SearchConfig, es: Entries, query: string): (r: seq<string>)
    ensures r == [] || (r == [Strip(query)] && Get(es, query).None?)
    ensures Get(es, query).Some? ==> r == []
  {
    if Lru.Position(es, query).Some? then [] else RequestsFor(cfg, query)
  }

  /** The entries after calls with each of `qs`, in order. */
  function ReplayEntries(cfg: SearchConfig, es: Entries, qs: seq<string>): (r: Entries)
    requires |es| <= CacheSize
    ensures |r| <= CacheSize
  {
    if qs == [] then es
    else CallEntries(cfg, ReplayEntries(cfg, es, qs[..|qs| - 1]), qs[|qs| - 1])
  }

  /** The requests sent by calls with each of `qs`, in order: at most one per call. */
  function ReplayRequests(cfg: SearchConfig, es: Entries, qs: seq<string>): (r: seq<string>)
    requires |es| <= CacheSize
    ensures |r| <= |qs|
  {
    if qs == [] then []
    else
      var init := qs[..|qs| - 1];
      ReplayRequests(cfg, es, init) + CallRequests(cfg, ReplayEntries(cfg, es, init), qs[|qs| - 1])
  }

  /**
   * Starting from entries `e0` with `r0` requests sent, calls with each of `qs` leave the
   * entries `es` and the request log `rs`.
   */
  ghost predicate Replayed(cfg: SearchConfig, e0: Entries, r0: seq<string>, qs: seq<string>, es: Entries, rs: seq<string>) {
    && |e0| <= CacheSize
    && es == ReplayEntries(cfg, e0, qs)
    && rs == r0 + ReplayRequests(cfg, e0, qs)
  }

  /** One more call. */
  lemma ReplaySnoc(cfg: SearchConfig, e0: Entries, r0: seq<string>, qs: seq<string>, es: Entries, rs: seq<string>, q: string)
    requires Replayed(cfg, e0, r0, qs, es, rs)
    ensures Replayed(cfg, e0, r0, qs + [q], CallEntries(cfg, es, q), rs + CallRequests(cfg, es, q))
  {
    assert (qs + [q])[..|qs|] == qs;
  }

  /** No call at all. */
  lemma ReplayNone(cfg: SearchConfig, e0: Entries, r0: seq<string>)
    requires |e0| <= CacheSize
    ensures Replayed(cfg, e0, r0, [], e0, r0)
  {
    assert r0 + [] == r0;
  }

  /** Calls with `a` and then with `b` are calls with `a + b`. */
  lemma {:induction false} ReplayAppend(cfg: SearchConfig, es: Entries, a: seq<string>, b: seq<string>)
    requires |es| <= CacheSize
    ensures ReplayEntries(cfg, es, a + b) == ReplayEntries(cfg, ReplayEntries(cfg, es, a), b)
    ensures ReplayRequests(cfg, es, a + b)
         == ReplayRequests(cfg, es, a) + ReplayRequests(cfg, ReplayEntries(cfg, es, a), b)
    decreases |b|
  {
    if b == [] {
      assert a + b == a;
    } else {
      var b' := b[..|b| - 1];
      assert (a + b)[..|a + b| - 1] == a + b';
      assert (a + b)[|a + b| - 1] == b[|b| - 1];
      ReplayAppend(cfg, es, a, b');
    }
  }

  lemma ReplayedThen(cfg: SearchConfig, e0: Entries, r0: seq<string>, a: seq<string>, e1: Entries, r1: seq<string>,
                     b: seq<string>, e2: Entries, r2: seq<string>)
    requires Replayed(cfg, e0, r0, a, e1, r1) && Replayed(cfg, e1, r1, b, e2, r2)
    ensures Replayed(cfg, e0, r0, a + b, e2, r2)
  {
    ReplayAppend(cfg, e0, a, b);
    var ra, rb := ReplayRequests(cfg, e0, a), ReplayRequests(cfg, e1, b);
    Associate(r0, ra, rb);
  }

  lemma Associate(x: seq<string>, y: seq<string>, z: seq<string>)
    ensures (x + y) + z == x + (y + z)
  {
  }

  /** Every request sent is the stripped form of one of the queries asked. */
  lemma {:induction false} ReplayRequestsAreQueries(cfg: SearchConfig, es: Entries, qs: seq<string>)
    requires |es| <= CacheSize
    ensures forall k :: 0 <= k < |ReplayRequests(cfg, es, qs)| ==>
              exists j :: 0 <= j < |qs| && ReplayRequests(cfg, es, qs)[k] == Strip(qs[j])
  {
    if qs != [] {
      var init := qs[..|qs| - 1];
      ReplayRequestsAreQueries(cfg, es, init);
      var front := ReplayRequests(cfg, es, init);
      var last := CallRequests(cfg, ReplayEntries(cfg, es, init), qs[|qs| - 1]);
      var r := ReplayRequests(cfg, es, qs);
      assert r == front + last;
      forall k | 0 <= k < |r| ensures exists j :: 0 <= j < |qs| && r[k] == Strip(qs[j]) {
        if k < |front| {
          var j :| 0 <= j < |init| && front[k] == Strip(init[j]);
          assert init[j] == qs[j];
          assert 0 <= j < |qs| && r[k] == Strip(qs[j]);
        } else {
          var j := |qs| - 1;
          assert last == [Strip(qs[j])];
          assert 0 <= j < |qs| && r[k] == Strip(qs[j]);
        }
      }
    } else {
      assert ReplayRequests(cfg, es, qs) == [];
    }
  }

  /**
   * With room to spare, a call keeps the keys distinct, keeps every cached query cached,
   * adds at most one entry, and caches its own query when the search returns.
   */
  lemma CallKeepsCached(cfg: SearchConfig, es: Entries, query: string)
    requires Lru.DistinctKeys(es) && |es| < CacheSize
    ensures var r := CallEntries(cfg, es, query);
            && Lru.DistinctKeys(r) && |r| <= |es| + 1
            && (forall k :: Get(es, k).Some? ==> Get(r, k).Some?)
            && (Search(cfg, query).Success? ==> Get(r, query).Some?)
  {
    match Lru.Position(es, query)
    case Some(i) =>
      Lru.TouchKeepsMap(es, i);
      Lru.LookupAt(es, i);
    case None =>
      if Search(cfg, query).Success? {
        Lru.AdmitKeepsMap(es, query, Search(cfg, query).value, CacheSize);
      }
  }

  /** Without eviction, calls keep every cached query cached. */
  lemma {:induction false} ReplayKeepsCached(cfg: SearchConfig, es: Entries, qs: seq<string>, q: string)
    requires Lru.DistinctKeys(es) && |es| + |qs| <= CacheSize
    ensures var r := ReplayEntries(cfg, es, qs);
            && Lru.DistinctKeys(r) && |r| <= |es| + |qs|
            && (Get(es, q).Some? ==> Get(r, q).Some?)
  {
    if qs != [] {
      var init := qs[..|qs| - 1];
      ReplayKeepsCached(cfg, es, init, q);
      CallKeepsCached(cfg, ReplayEntries(cfg, es, init), qs[|qs| - 1]);
    }
  }

  /**
   * The point of the memo: while nothing is evicted, a query asked again after a call that
   * returned sends no second request.
   */
  lemma RepeatSendsNothing(cfg: SearchConfig, es: Entries, qs: seq<string>, i: nat, j: nat)
    requires Lru.DistinctKeys(es) && |es| + |qs| <= CacheSize
    requires i < j < |qs| && qs[i] == qs[j] && Search(cfg, qs[i]).Success?
    ensures CallRequests(cfg, ReplayEntries(cfg, es, qs[..j]), qs[j]) == []
  {
    var q := qs[i];
    var before := ReplayEntries(cfg, es, qs[..i]);
    ReplayKeepsCached(cfg, es, qs[..i], q);
    CallKeepsCached(cfg, before, q);
    ReplayPrefixSplit(cfg, es, qs, i, j);
    ReplayKeepsCached(cfg, CallEntries(cfg, before, q), qs[i + 1..j], q);
  }

  /** The calls before `j` are those before `i`, the call at `i`, and the calls between. */
  lemma ReplayPrefixSplit(cfg: SearchConfig, es: Entries, qs: seq<string>, i: nat, j: nat)
    requires |es| <= CacheSize && i < j <= |qs|
    ensures ReplayEntries(cfg, es, qs[..j])
         == ReplayEntries(cfg, CallEntries(cfg, ReplayEntries(cfg, es, qs[..i]), qs[i]), qs[i + 1..j])
  {
    assert qs[..i + 1][..i] == qs[..i];
    assert qs[..j] == qs[..i + 1] + qs[i + 1..j];
    ReplayAppend(cfg, es, qs[..i + 1], qs[i + 1..j]);
  }

  /**
   * The `lru_cache(maxsize=128)` wrapper around `search_youtube_playlist`: entries are
   * kept least recently used first; `Requests` records every query sent to the API.
   */
  /** A hit: the cached value is the uncached result, and moving the entry keeps the memo. */
  lemma CallHit(cfg: SearchConfig, es: Entries, query: string, i: nat)
    requires |es| <= CacheSize && Lru.DistinctKeys(es) && Memoizes(cfg, es)
    requires Lru.Position(es, query) == Some(i)
    ensures i < |es| && Search(cfg, query) == Success(es[i].1)
    ensures var t := Lru.Touch(es, i);
            |t| <= CacheSize && Lru.DistinctKeys(t) && Memoizes(cfg, t)
    ensures CallEntries(cfg, es, query) == Lru.Touch(es, i) && CallRequests(cfg, es, query) == []
  {
    Lru.TouchKeepsMap(es, i);
    TouchMemoizes(cfg, es, i);
  }

  /** A miss: caching a returned value keeps the memo. */
  lemma CallMiss(cfg: SearchConfig, es: Entries, query: string)
    requires |es| <= CacheSize && Lru.DistinctKeys(es) && Memoizes(cfg, es)
    requires Lru.Position(es, query).None?
    ensures Search(cfg, query).Success? ==>
              var a := Lru.Admit(es, query, Search(cfg, query).value, CacheSize);
              |a| <= CacheSize && Lru.DistinctKeys(a) && Memoizes(cfg, a)
    ensures CallEntries(cfg, es, query)
         == if Search(cfg, query).Success? then Lru.Admit(es, query, Search(cfg, query).value, CacheSize) else es
    ensures CallRequests(cfg, es, query) == RequestsFor(cfg, query)
  {
    if Search(cfg, query).Success? {
      Lru.AdmitKeepsMap(es, query, Search(cfg, query).value, CacheSize);
      AdmitMemoizes(cfg, es, query, Search(cfg, query).value);
    }
  }

  class CachedSearch {
    const cfg: SearchConfig
    /** The decorated function, as a value. */
    const search: Lookup
    var entries: Entries
    ghost var Requests: seq<string>

    /** At most 128 entries, one per query, each holding what the uncached call returns. */
    ghost predicate Valid()
      reads this
    {
      && |entries| <= CacheSize
      && Lru.DistinctKeys(entries)
      && Memoizes(cfg, entries)
      && search == SearchOf(cfg)
    }

    constructor (cfg: SearchConfig)
      ensures Valid() && this.cfg == cfg && entries == [] && Requests == []
    {
      this.cfg := cfg;
      search := SearchOf(cfg);
      entries := [];
      Requests := [];
    }

    /**
     * One call of the decorated function. A hit moves the entry to the most recently used
     * end and sends nothing. A miss runs the function; a returned value (including `None`)
     * is cached, evicting the least recently used entry when 128 are held, and a raised
     * exception is passed on without caching.
     */
    method Call(query: string) returns (r: Result<Option<Playlist>, string>)
      requires Valid()
      modifies this
      ensures Valid()
      ensures r == Search(cfg, query) == search(query)
      ensures match Lru.Position(old(entries), query)
              case Some(i) => entries == Lru.Touch(old(entries), i) && Requests == old(Requests)
              case None =>
                && Requests == old(Requests) + RequestsFor(cfg, query)
                && entries == if r.Success? then Lru.Admit(old(entries), query, r.value, CacheSize) else old(entries)
      ensures entries == CallEntries(cfg, old(entries), query)
      ensures Requests == old(Requests) + CallRequests(cfg, old(entries), query)
    {
      match Lru.Position(entries, query)
      case Some(i) =>
        CallHit(cfg, entries, query, i);
        r := Success(entries[i].1);
        entries := Lru.Touch(entries, i);
      case None =>
        CallMiss(cfg, entries, query);
        r := Search(cfg, query);
        Requests := Requests + RequestsFor(cfg, query);
        if r.Success? {
          entries := Lru.Admit(entries, query, r.value, CacheSize);
        }
    }
  }

  /**
   * Asking the cache the same query twice gives the same result twice, and a query whose
   * first call returned sends no second request.
   */
  method RepeatQuery(cache: CachedSearch, query: string) returns (first: Result<Option<Playlist>, string>, second: Result<Option<Playlist>, string>)
    requires cache.Valid()
    modifies cache
    ensures cache.Valid()
    ensures first == second == Search(cache.cfg, query)
    ensures first.Success? ==> |cache.Requests| <= |old(cache.Requests)| + 1
    ensures Get(old(cache.entries), query).Some? ==> cache.Requests == old(cache.Requests)
  {
    first := cache.Call(query);
    if first.Success? {
      assert Get(cache.entries, query).Some? by {
        if Lru.Position(old(cache.entries), query).None? {
          assert cache.entries[|cache.entries| - 1] == (query, first.value);
        }
      }
    }
    second := cache.Call(query);
  }
}
