/**
 * `attach_playlists(data)`: every unit's `very_important` and `important` lists are
 * replaced by lists of `{"topic": t, "playlist": p}` records, one per topic and in the
 * same order, `p` being what the (cached) playlist search returns for
 * `f"{t} full course playlist"`.
 *
 * The specification functions fold from the left, in the order the loops run, so the
 * first exception raised (by a value of the wrong type or by the search) is the one
 * that comes out.
 */
module Enrichment {
  import opened Wrappers
  import opened PyText
  import opened Dict
  import opened JsonValue
  import opened YouTube

  /** The two levels enriched, in the order the loop visits them. */
  const Levels: seq<string> := ["very_important", "important"]
  const QuerySuffix := " full course playlist"

  /** `f"{topic} full course playlist"`. */
  function TopicQuery(topic: Json, render: Json -> string): (q: string)
    ensures |q| >= |QuerySuffix| && q[|q| - |QuerySuffix|..] == QuerySuffix
    ensures topic.JString? ==> q == topic.s + QuerySuffix
  {
    var q := PyStr(render, topic) + QuerySuffix;
    assert q[|q| - |QuerySuffix|..] == QuerySuffix;
    q
  }

  /** `{"topic": topic, "playlist": playlist}`. */
  function TopicRecord(topic: Json, found: Option<Playlist>): Json {
    JObject([("topic", topic), ("playlist", match found case None => JNull case Some(p) => PlaylistJson(p))])
  }

  /**
   * `[f(x) for x in xs]` where `f` may raise: the results in order, or the exception of
   * the first element whose step raised (later elements are not reached).
   */
  function MapAll<A, B>(xs: seq<A>, f: A -> Result<B, string>): (r: Result<seq<B>, string>)
    ensures r.Success? ==> |r.value| == |xs|
  {
    if xs == [] then Success([])
    else
      match MapAll(xs[..|xs| - 1], f)
      case Failure(e) => Failure(e)
      case Success(rs) =>
        match f(xs[|xs| - 1])
        case Failure(e) => Failure(e)
        case Success(r) => Success(rs + [r])
  }

  /** One pass of the innermost loop: search for the topic and build its record. */
  function TopicStep(topic: Json, lookup: Lookup, render: Json -> string): Result<Json, string> {
    match lookup(TopicQuery(topic, render))
    case Failure(e) => Failure(e)
    case Success(found) => Success(TopicRecord(topic, found))
  }

  /** The `enriched` list built for `topics`, or the first exception the search raises. */
  function EnrichTopics(topics: seq<Json>, lookup: Lookup, render: Json -> string): (r: Result<seq<Json>, string>)
    ensures r.Success? ==> |r.value| == |topics|
  {
    MapAll(topics, t => TopicStep(t, lookup, render))
  }

  /** `for topic in unit.get(level, []): ...` followed by `unit[level] = enriched`. */
  function EnrichLevel(fields: seq<(string, Json)>, level: string, lookup: Lookup, render: Json -> string): (r: Result<seq<(string, Json)>, string>)
    ensures r.Success? ==> Get(r.value, level).Some? && Get(r.value, level).value.JArray?
    ensures r.Success? ==> |fields| <= |r.value|
  {
    match Iterate(GetOr(fields, level, JArray([])))
    case Failure(e) => Failure(e)
    case Success(topics) =>
      match EnrichTopics(topics, lookup, render)
      case Failure(e) => Failure(e)
      case Success(rs) => Success(Put(fields, level, JArray(rs)))
  }

  /** The levels loop over the first `|levels|` levels, on the unit's fields. */
  function EnrichLevels(fields: seq<(string, Json)>, levels: seq<string>, lookup: Lookup, render: Json -> string): Result<seq<(string, Json)>, string> {
    if levels == [] then Success(fields)
    else
      match EnrichLevels(fields, levels[..|levels| - 1], lookup, render)
      case Failure(e) => Failure(e)
      case Success(f) => EnrichLevel(f, levels[|levels| - 1], lookup, render)
  }

  /** One unit after the levels loop; a unit that is not a dict has no `get`. */
  function EnrichUnit(unit: Json, lookup: Lookup, render: Json -> string): (r: Result<Json, string>)
    ensures r.Success? ==> unit.JObject? && r.value.JObject?
  {
    if !unit.JObject? then Failure(NoAttribute(unit, "get"))
    else
      match EnrichLevels(unit.fields, Levels, lookup, render)
      case Failure(e) => Failure(e)
      case Success(f) => Success(JObject(f))
  }

  /** The units loop over `units`. */
  function EnrichUnits(units: seq<Json>, lookup: Lookup, render: Json -> string): Result<seq<Json>, string> {
    MapAll(units, u => EnrichUnit(u, lookup, render))
  }

  /**
   * `attach_playlists(data)`. The units are rewritten where they stand, so `data` comes
   * back with its `units` list replaced; without a `units` key nothing changes. A
   * `units` value that is iterable but not a list (a string or a dict) yields its
   * characters or keys, the first of which has no `get`.
   */
  function Attached(data: Json, lookup: Lookup, render: Json -> string): (r: Result<Json, string>)
    ensures r.Success? ==> data.JObject? && r.value.JObject? && |r.value.fields| == |data.fields|
  {
    if !data.JObject? then Failure(NoAttribute(data, "get"))
    else
      match Get(data.fields, "units")
      case None => Success(data)
      case Some(units) =>
        match Iterate(units)
        case Failure(e) => Failure(e)
        case Success(us) =>
          match EnrichUnits(us, lookup, render)
          case Failure(e) => Failure(e)
          case Success(rs) =>
            if units.JArray? then Success(JObject(Put(data.fields, "units", JArray(rs)))) else Success(data)
  }

  // ---------------------------------------------------------------------------
  // The searches the loops ask for, in order
  // ---------------------------------------------------------------------------

  /** The queries the topics loop asks: one per topic reached, the one that raises included. */
  function TopicQueries(topics: seq<Json>, lookup: Lookup, render: Json -> string): seq<string> {
    if topics == [] then []
    else
      var init := topics[..|topics| - 1];
      if EnrichTopics(init, lookup, render).Failure? then TopicQueries(init, lookup, render)
      else TopicQueries(init, lookup, render) + [TopicQuery(topics[|topics| - 1], render)]
  }

  /** The queries one pass of the levels loop asks; none when the level is not iterable. */
  function LevelQueries(fields: seq<(string, Json)>, level: string, lookup: Lookup, render: Json -> string): seq<string> {
    match Iterate(GetOr(fields, level, JArray([])))
    case Failure(_) => []
    case Success(topics) => TopicQueries(topics, lookup, render)
  }

  /** The queries the levels loop over `levels` asks, each level on the fields the previous ones left. */
  function LevelsQueries(fields: seq<(string, Json)>, levels: seq<string>, lookup: Lookup, render: Json -> string): seq<string> {
    if levels == [] then []
    else
      var init := levels[..|levels| - 1];
      match EnrichLevels(fields, init, lookup, render)
      case Failure(_) => LevelsQueries(fields, init, lookup, render)
      case Success(f) => LevelsQueries(fields, init, lookup, render) + LevelQueries(f, levels[|levels| - 1], lookup, render)
  }

  /** The queries enriching one unit asks. */
  function UnitQueries(unit: Json, lookup: Lookup, render: Json -> string): seq<string> {
    if !unit.JObject? then [] else LevelsQueries(unit.fields, Levels, lookup, render)
  }

  /** The queries the units loop asks, unit after unit until one raises. */
  function UnitsQueries(units: seq<Json>, lookup: Lookup, render: Json -> string): seq<string> {
    if units == [] then []
    else
      var init := units[..|units| - 1];
      if EnrichUnits(init, lookup, render).Failure? then UnitsQueries(init, lookup, render)
      else UnitsQueries(init, lookup, render) + UnitQueries(units[|units| - 1], lookup, render)
  }

  /** The queries `attach_playlists(data)` asks, in the order it asks them. */
  function AttachedQueries(data: Json, lookup: Lookup, render: Json -> string): seq<string> {
    if !data.JObject? then []
    else
      match Iterate(GetOr(data.fields, "units", JArray([])))
      case Failure(_) => []
      case Success(us) => UnitsQueries(us, lookup, render)
  }

  // ---------------------------------------------------------------------------
  // What the folds compute, element by element
  // ---------------------------------------------------------------------------

  /** The fold gives one result per element, in order, each what the step gave for it. */
  lemma {:induction false} MapAllElements<A, B>(xs: seq<A>, f: A -> Result<B, string>)
    requires MapAll(xs, f).Success?
    ensures |MapAll(xs, f).value| == |xs|
    ensures forall i :: 0 <= i < |xs| ==> f(xs[i]) == Success(MapAll(xs, f).value[i])
  {
    if xs != [] {
      var init := xs[..|xs| - 1];
      MapAllElements(init, f);
      assert forall i :: 0 <= i < |init| ==> init[i] == xs[i];
    }
  }

  /** The fold completes exactly when no step raises. */
  lemma {:induction false} MapAllSucceeds<A, B>(xs: seq<A>, f: A -> Result<B, string>)
    ensures MapAll(xs, f).Success? <==> forall i :: 0 <= i < |xs| ==> f(xs[i]).Success?
  {
    if xs != [] {
      var init := xs[..|xs| - 1];
      MapAllSucceeds(init, f);
      assert forall i :: 0 <= i < |init| ==> init[i] == xs[i];
    }
  }

  /** When the fold raises, it passes on the exception of the first element whose step raised. */
  lemma {:induction false} MapAllFirstFailure<A, B>(xs: seq<A>, f: A -> Result<B, string>)
    requires MapAll(xs, f).Failure?
    ensures exists i :: 0 <= i < |xs| && f(xs[i]) == Failure(MapAll(xs, f).error)
              && forall j :: 0 <= j < i ==> f(xs[j]).Success?
  {
    var init := xs[..|xs| - 1];
    assert forall i :: 0 <= i < |init| ==> init[i] == xs[i];
    if MapAll(init, f).Failure? {
      MapAllFirstFailure(init, f);
    } else {
      MapAllSucceeds(init, f);
    }
  }

  /** Once a prefix raises, the whole fold raises the same exception. */
  lemma {:induction false} MapAllFailurePersists<A, B>(xs: seq<A>, k: nat, f: A -> Result<B, string>)
    requires k <= |xs| && MapAll(xs[..k], f).Failure?
    ensures MapAll(xs, f) == MapAll(xs[..k], f)
  {
    if k == |xs| {
      assert xs[..k] == xs;
    } else {
      var init := xs[..|xs| - 1];
      assert init[..k] == xs[..k];
      MapAllFailurePersists(init, k, f);
    }
  }

  /** The search for topic `t` returned a value rather than raising. */
  predicate Found(lookup: Lookup, render: Json -> string, t: Json) {
    lookup(TopicQuery(t, render)).Success?
  }

  /**
   * The enriched list has one record per topic, in the same order, each holding the
   * topic and what the search returned for its query; it is built exactly when no
   * search raises.
   */
  lemma EnrichTopicsElements(topics: seq<Json>, lookup: Lookup, render: Json -> string)
    ensures EnrichTopics(topics, lookup, render).Success? <==> forall i :: 0 <= i < |topics| ==> Found(lookup, render, topics[i])
    ensures EnrichTopics(topics, lookup, render).Success? ==>
              var rs := EnrichTopics(topics, lookup, render).value;
              && |rs| == |topics|
              && forall i :: 0 <= i < |topics| ==> rs[i] == TopicRecord(topics[i], lookup(TopicQuery(topics[i], render)).value)
  {
    var f := t => TopicStep(t, lookup, render);
    MapAllSucceeds(topics, f);
    if EnrichTopics(topics, lookup, render).Success? {
      MapAllElements(topics, f);
    }
  }

  /** When a search raises, the exception passed on is that of the first topic whose search raised. */
  lemma EnrichTopicsFirstFailure(topics: seq<Json>, lookup: Lookup, render: Json -> string)
    requires EnrichTopics(topics, lookup, render).Failure?
    ensures exists i :: 0 <= i < |topics|
              && lookup(TopicQuery(topics[i], render)) == Failure(EnrichTopics(topics, lookup, render).error)
              && forall j :: 0 <= j < i ==> Found(lookup, render, topics[j])
  {
    MapAllFirstFailure(topics, t => TopicStep(t, lookup, render));
  }

  /** The units come back one for one, in the same order, each enriched on its own; this happens exactly when every unit can be enriched. */
  lemma EnrichUnitsElements(units: seq<Json>, lookup: Lookup, render: Json -> string)
    ensures EnrichUnits(units, lookup, render).Success? <==> forall i :: 0 <= i < |units| ==> EnrichUnit(units[i], lookup, render).Success?
    ensures EnrichUnits(units, lookup, render).Success? ==>
              var rs := EnrichUnits(units, lookup, render).value;
              && |rs| == |units|
              && forall i :: 0 <= i < |units| ==> EnrichUnit(units[i], lookup, render) == Success(rs[i])
  {
    var f := u => EnrichUnit(u, lookup, render);
    MapAllSucceeds(units, f);
    if EnrichUnits(units, lookup, render).Success? {
      MapAllElements(units, f);
    }
  }

  /**
   * The topics loop asks one query per topic, in order, stopping after the first topic
   * whose search raised: all of them when none raises, and otherwise the query it asked
   * last is the one whose exception comes out.
   */
  lemma TopicQueriesInOrder(topics: seq<Json>, lookup: Lookup, render: Json -> string)
    ensures var qs := TopicQueries(topics, lookup, render);
            && |qs| <= |topics|
            && (forall i :: 0 <= i < |qs| ==> qs[i] == TopicQuery(topics[i], render))
            && (EnrichTopics(topics, lookup, render).Success? ==> |qs| == |topics|)
            && (EnrichTopics(topics, lookup, render).Failure? ==>
                  qs != [] && lookup(qs[|qs| - 1]) == Failure(EnrichTopics(topics, lookup, render).error))
  {
    TopicQueriesElements(topics, lookup, render);
    TopicQueriesReachFailure(topics, lookup, render);
  }

  lemma {:induction false} TopicQueriesElements(topics: seq<Json>, lookup: Lookup, render: Json -> string)
    ensures var qs := TopicQueries(topics, lookup, render);
            && |qs| <= |topics|
            && (forall i :: 0 <= i < |qs| ==> qs[i] == TopicQuery(topics[i], render))
  {
    if topics != [] {
      var init := topics[..|topics| - 1];
      TopicQueriesElements(init, lookup, render);
      if EnrichTopics(init, lookup, render).Success? {
        TopicQueriesReachFailure(init, lookup, render);
        TopicsStepSucceeds(topics, lookup, render);
      }
    }
  }

  /** When the topics before the last all returned, the last topic's query is asked after theirs. */
  lemma TopicsStepSucceeds(topics: seq<Json>, lookup: Lookup, render: Json -> string)
    requires topics != []
    requires var init := topics[..|topics| - 1];
             && EnrichTopics(init, lookup, render).Success?
             && |TopicQueries(init, lookup, render)| == |init|
             && forall i :: 0 <= i < |init| ==> TopicQueries(init, lookup, render)[i] == TopicQuery(init[i], render)
    ensures var qs := TopicQueries(topics, lookup, render);
            && |qs| == |topics|
            && forall i :: 0 <= i < |qs| ==> qs[i] == TopicQuery(topics[i], render)
  {
    var init := topics[..|topics| - 1];
    var before := TopicQueries(init, lookup, render);
    assert TopicQueries(topics, lookup, render) == before + [TopicQuery(topics[|topics| - 1], render)];
    SnocElements(init, topics, before, TopicQuery(topics[|topics| - 1], render), render);
  }

  /** Appending the last topic's query to the queries of the topics before it. */
  lemma SnocElements(init: seq<Json>, topics: seq<Json>, before: seq<string>, last: string, render: Json -> string)
    requires topics != [] && init == topics[..|topics| - 1] && last == TopicQuery(topics[|topics| - 1], render)
    requires |before| == |init| && forall i :: 0 <= i < |init| ==> before[i] == TopicQuery(init[i], render)
    ensures var qs := before + [last];
            forall i :: 0 <= i < |qs| ==> qs[i] == TopicQuery(topics[i], render)
  {
    var qs := before + [last];
    forall i | 0 <= i < |qs| ensures qs[i] == TopicQuery(topics[i], render) {
      if i < |before| {
        assert qs[i] == before[i] && init[i] == topics[i];
      }
    }
  }

  lemma {:induction false} TopicQueriesReachFailure(topics: seq<Json>, lookup: Lookup, render: Json -> string)
    ensures var qs := TopicQueries(topics, lookup, render);
            && (EnrichTopics(topics, lookup, render).Success? ==> |qs| == |topics|)
            && (EnrichTopics(topics, lookup, render).Failure? ==>
                  qs != [] && lookup(qs[|qs| - 1]) == Failure(EnrichTopics(topics, lookup, render).error))
  {
    if topics != [] {
      var init := topics[..|topics| - 1];
      TopicQueriesReachFailure(init, lookup, render);
      if EnrichTopics(init, lookup, render).Failure? {
        TopicsStepFails(topics, lookup, render);
      } else {
        TopicsStepLast(topics, lookup, render);
      }
    }
  }

  /** Once the topics before the last raise, the last is not reached. */
  lemma TopicsStepFails(topics: seq<Json>, lookup: Lookup, render: Json -> string)
    requires topics != [] && EnrichTopics(topics[..|topics| - 1], lookup, render).Failure?
    ensures EnrichTopics(topics, lookup, render) == EnrichTopics(topics[..|topics| - 1], lookup, render)
    ensures TopicQueries(topics, lookup, render) == TopicQueries(topics[..|topics| - 1], lookup, render)
  {
  }

  /** When the topics before the last all returned, the whole loop raises exactly when the last search raises. */
  lemma TopicsStepLast(topics: seq<Json>, lookup: Lookup, render: Json -> string)
    requires topics != [] && EnrichTopics(topics[..|topics| - 1], lookup, render).Success?
    ensures EnrichTopics(topics, lookup, render).Failure? ==>
              lookup(TopicQuery(topics[|topics| - 1], render)) == Failure(EnrichTopics(topics, lookup, render).error)
  {
  }

  /** `q` is `f"{t} full course playlist"` for some topic `t`. */
  ghost predicate IsTopicQuery(q: string, render: Json -> string) {
    exists t :: q == TopicQuery(t, render)
  }

  /** Every query `qs` holds is a topic query. */
  ghost predicate AllTopicQueries(qs: seq<string>, render: Json -> string) {
    forall k :: 0 <= k < |qs| ==> IsTopicQuery(qs[k], render)
  }

  lemma AllTopicQueriesAppend(a: seq<string>, b: seq<string>, render: Json -> string)
    requires AllTopicQueries(a, render) && AllTopicQueries(b, render)
    ensures AllTopicQueries(a + b, render)
  {
    forall k | 0 <= k < |a + b| ensures IsTopicQuery((a + b)[k], render) {
      if k < |a| {
        assert IsTopicQuery(a[k], render);
      } else {
        assert IsTopicQuery(b[k - |a|], render);
      }
    }
  }

  lemma LevelQueriesAreTopics(fields: seq<(string, Json)>, level: string, lookup: Lookup, render: Json -> string)
    ensures AllTopicQueries(LevelQueries(fields, level, lookup, render), render)
  {
    match Iterate(GetOr(fields, level, JArray([])))
    case Failure(_) =>
    case Success(topics) =>
      TopicQueriesInOrder(topics, lookup, render);
      var qs := TopicQueries(topics, lookup, render);
      forall k | 0 <= k < |qs| ensures IsTopicQuery(qs[k], render) {
        assert qs[k] == TopicQuery(topics[k], render);
      }
  }

  lemma {:induction false} LevelsQueriesAreTopics(fields: seq<(string, Json)>, levels: seq<string>, lookup: Lookup, render: Json -> string)
    ensures AllTopicQueries(LevelsQueries(fields, levels, lookup, render), render)
  {
    if levels != [] {
      var init := levels[..|levels| - 1];
      LevelsQueriesAreTopics(fields, init, lookup, render);
      match EnrichLevels(fields, init, lookup, render)
      case Failure(_) =>
      case Success(f) =>
        LevelQueriesAreTopics(f, levels[|levels| - 1], lookup, render);
        AllTopicQueriesAppend(LevelsQueries(fields, init, lookup, render), LevelQueries(f, levels[|levels| - 1], lookup, render), render);
    }
  }

  lemma {:induction false} UnitsQueriesAreTopics(units: seq<Json>, lookup: Lookup, render: Json -> string)
    ensures AllTopicQueries(UnitsQueries(units, lookup, render), render)
  {
    if units != [] {
      var init := units[..|units| - 1];
      var last := units[|units| - 1];
      UnitsQueriesAreTopics(init, lookup, render);
      if EnrichUnits(init, lookup, render).Success? && last.JObject? {
        LevelsQueriesAreTopics(last.fields, Levels, lookup, render);
        AllTopicQueriesAppend(UnitsQueries(init, lookup, render), UnitQueries(last, lookup, render), render);
      }
    }
  }

  /**
   * Every search `attach_playlists` asks for is `f"{t} full course playlist"` for some
   * topic `t`, so every request the cache sends for it is the stripped form of one.
   */
  lemma AttachedSearchesTopics(data: Json, cfg: SearchConfig, es: Entries)
    requires |es| <= CacheSize
    ensures AllTopicQueries(AttachedQueries(data, SearchOf(cfg), cfg.render), cfg.render)
    ensures var qs := AttachedQueries(data, SearchOf(cfg), cfg.render);
            var rs := ReplayRequests(cfg, es, qs);
            && |rs| <= |qs|
            && forall k :: 0 <= k < |rs| ==> exists j :: 0 <= j < |qs| && rs[k] == Strip(qs[j])
  {
    if data.JObject? {
      match Iterate(GetOr(data.fields, "units", JArray([])))
      case Failure(_) =>
      case Success(us) => UnitsQueriesAreTopics(us, SearchOf(cfg), cfg.render);
    }
    ReplayRequestsAreQueries(cfg, es, AttachedQueries(data, SearchOf(cfg), cfg.render));
  }

  /**
   * The point of the cache inside the topics loop: while nothing is evicted, a topic that
   * comes again after one whose search returned costs no second request.
   */
  lemma RepeatedTopicSearchedOnce(topics: seq<Json>, cfg: SearchConfig, es: Entries, i: nat, j: nat)
    requires Lru.DistinctKeys(es) && |es| + |topics| <= CacheSize
    requires var qs := TopicQueries(topics, SearchOf(cfg), cfg.render);
             i < j < |qs| && qs[i] == qs[j] && Search(cfg, qs[i]).Success?
    ensures var qs := TopicQueries(topics, SearchOf(cfg), cfg.render);
            CallRequests(cfg, ReplayEntries(cfg, es, qs[..j]), qs[j]) == []
  {
    var qs := TopicQueries(topics, SearchOf(cfg), cfg.render);
    TopicQueriesElements(topics, SearchOf(cfg), cfg.render);
    RepeatSendsNothing(cfg, es, qs, i, j);
  }

  // ---------------------------------------------------------------------------
  // What happens to one unit
  // ---------------------------------------------------------------------------

  /** A level the unit does not have is added at the end, as an empty list. */
  lemma MissingLevelBecomesEmpty(fields: seq<(string, Json)>, level: string, lookup: Lookup, render: Json -> string)
    requires Get(fields, level).None?
    ensures EnrichLevel(fields, level, lookup, render) == Success(fields + [(level, JArray([]))])
  {
    assert Put(fields, level, JArray([])) == fields + [(level, JArray([]))] by {
      PutAbsentAppends(fields, level, JArray([]));
    }
  }

  /** A level holding a list is replaced, in its key's place, by the records built for its topics. */
  lemma LevelListIsReplaced(fields: seq<(string, Json)>, level: string, topics: seq<Json>, lookup: Lookup, render: Json -> string)
    requires Get(fields, level) == Some(JArray(topics))
    requires EnrichTopics(topics, lookup, render).Success?
    ensures EnrichLevel(fields, level, lookup, render)
         == Success(Put(fields, level, JArray(EnrichTopics(topics, lookup, render).value)))
  {
    assert GetOr(fields, level, JArray([])) == JArray(topics);
  }

  /** Enriching one level leaves every other key of the unit, and the order of its keys, as it was. */
  lemma EnrichLevelKeepsOthers(fields: seq<(string, Json)>, level: string, lookup: Lookup, render: Json -> string)
    requires EnrichLevel(fields, level, lookup, render).Success?
    ensures var f := EnrichLevel(fields, level, lookup, render).value;
            && (forall k :: k != level ==> Get(f, k) == Get(fields, k))
            && |fields| <= |f|
            && forall i :: 0 <= i < |fields| ==> f[i].0 == fields[i].0
  {
  }

  lemma {:induction false} EnrichLevelsKeepsOthers(fields: seq<(string, Json)>, levels: seq<string>, lookup: Lookup, render: Json -> string)
    requires EnrichLevels(fields, levels, lookup, render).Success?
    ensures var f := EnrichLevels(fields, levels, lookup, render).value;
            && (forall k :: k !in levels ==> Get(f, k) == Get(fields, k))
            && |fields| <= |f|
            && forall i :: 0 <= i < |fields| ==> f[i].0 == fields[i].0
  {
    if levels != [] {
      var init := levels[..|levels| - 1];
      EnrichLevelsKeepsOthers(fields, init, lookup, render);
      var g := EnrichLevels(fields, init, lookup, render).value;
      EnrichLevelKeepsOthers(g, levels[|levels| - 1], lookup, render);
      assert forall k :: k in init ==> k in levels;
    }
  }

  /**
   * An enriched unit keeps `unit_name`, `optional` and every key other than the two
   * levels, and its keys stay in their order.
   */
  lemma EnrichUnitKeepsOthers(unit: Json, lookup: Lookup, render: Json -> string)
    requires EnrichUnit(unit, lookup, render).Success?
    ensures unit.JObject? && EnrichUnit(unit, lookup, render).value.JObject?
    ensures var f := EnrichUnit(unit, lookup, render).value.fields;
            && (forall k :: k !in Levels ==> Get(f, k) == Get(unit.fields, k))
            && |unit.fields| <= |f|
            && forall i :: 0 <= i < |unit.fields| ==> f[i].0 == unit.fields[i].0
  {
    EnrichLevelsKeepsOthers(unit.fields, Levels, lookup, render);
  }

  /** The levels loop runs exactly twice: `very_important`, then `important`. */
  lemma EnrichLevelsUnrolled(fields: seq<(string, Json)>, lookup: Lookup, render: Json -> string)
    ensures EnrichLevels(fields, Levels, lookup, render)
         == match EnrichLevel(fields, "very_important", lookup, render)
            case Failure(e) => Failure(e)
            case Success(f) => EnrichLevel(f, "important", lookup, render)
  {
    assert Levels[..1] == ["very_important"] && Levels[1] == "important";
    LastLevel(fields, Levels, lookup, render);
    assert ["very_important"][..0] == [];
    LastLevel(fields, ["very_important"], lookup, render);
  }

  /** The levels loop over a non-empty list is the loop over all but the last, then the last. */
  lemma LastLevel(fields: seq<(string, Json)>, levels: seq<string>, lookup: Lookup, render: Json -> string)
    requires levels != []
    ensures EnrichLevels(fields, levels, lookup, render)
         == match EnrichLevels(fields, levels[..|levels| - 1], lookup, render)
            case Failure(e) => Failure(e)
            case Success(f) => EnrichLevel(f, levels[|levels| - 1], lookup, render)
  {
  }

  /** Both levels of an enriched unit hold lists. */
  lemma EnrichUnitLevelsAreLists(unit: Json, lookup: Lookup, render: Json -> string)
    requires EnrichUnit(unit, lookup, render).Success?
    ensures var f := EnrichUnit(unit, lookup, render).value.fields;
            && Get(f, "very_important").Some? && Get(f, "very_important").value.JArray?
            && Get(f, "important").Some? && Get(f, "important").value.JArray?
  {
    var f0 := unit.fields;
    EnrichLevelsUnrolled(f0, lookup, render);
    var f1 := EnrichLevel(f0, "very_important", lookup, render).value;
    EnrichLevelKeepsOthers(f1, "important", lookup, render);
  }

  // ---------------------------------------------------------------------------
  // What happens to the outline
  // ---------------------------------------------------------------------------

  /**
   * Enriching the outline leaves `subject` and every key other than `units` unchanged,
   * keeps the keys in order, and returns the units one for one, in the same order.
   */
  lemma AttachedKeepsOutline(data: Json, lookup: Lookup, render: Json -> string)
    requires Attached(data, lookup, render).Success?
    ensures data.JObject? && Attached(data, lookup, render).value.JObject?
    ensures var f := Attached(data, lookup, render).value.fields;
            && (forall k :: k != "units" ==> Get(f, k) == Get(data.fields, k))
            && |f| == |data.fields|
            && forall i :: 0 <= i < |f| ==> f[i].0 == data.fields[i].0
    ensures forall us :: Get(data.fields, "units") == Some(JArray(us)) ==>
              && Get(Attached(data, lookup, render).value.fields, "units").Some?
              && var rs := Get(Attached(data, lookup, render).value.fields, "units").value;
              && rs.JArray? && |rs.items| == |us|
              && forall i :: 0 <= i < |us| ==> EnrichUnit(us[i], lookup, render) == Success(rs.items[i])
  {
    match Get(data.fields, "units")
    case None =>
    case Some(units) =>
      var us := Iterate(units).value;
      EnrichUnitsElements(us, lookup, render);
  }

  /** An outline without `units` comes back as it was, and nothing is searched. */
  lemma NoUnitsUnchanged(data: Json, lookup: Lookup, render: Json -> string)
    requires data.JObject? && Get(data.fields, "units").None?
    ensures Attached(data, lookup, render) == Success(data)
  {
  }

  /**
   * When the outline has the shape the prompt asks for and no search raises, the
   * enrichment succeeds.
   */
  predicate OutlineShaped(data: Json, lookup: Lookup, render: Json -> string) {
    && data.JObject?
    && match Get(data.fields, "units")
       case None => true
       case Some(units) =>
         && units.JArray?
         && forall i :: 0 <= i < |units.items| ==> UnitShaped(units.items[i], lookup, render)
  }

  /** A unit is a dict whose two levels, where present, are lists of topics the search finds. */
  predicate UnitShaped(unit: Json, lookup: Lookup, render: Json -> string) {
    && unit.JObject?
    && LevelShaped(unit.fields, "very_important", lookup, render)
    && LevelShaped(unit.fields, "important", lookup, render)
  }

  predicate LevelShaped(fields: seq<(string, Json)>, level: string, lookup: Lookup, render: Json -> string) {
    match Get(fields, level)
    case None => true
    case Some(topics) =>
      && topics.JArray?
      && forall i :: 0 <= i < |topics.items| ==> Found(lookup, render, topics.items[i])
  }

  lemma ShapedLevelSucceeds(fields: seq<(string, Json)>, level: string, lookup: Lookup, render: Json -> string)
    requires LevelShaped(fields, level, lookup, render)
    ensures EnrichLevel(fields, level, lookup, render).Success?
  {
    match Get(fields, level)
    case None =>
    case Some(topics) =>
      EnrichTopicsElements(topics.items, lookup, render);
  }

  lemma ShapedUnitSucceeds(unit: Json, lookup: Lookup, render: Json -> string)
    requires UnitShaped(unit, lookup, render)
    ensures EnrichUnit(unit, lookup, render).Success?
  {
    var f0 := unit.fields;
    EnrichLevelsUnrolled(f0, lookup, render);
    ShapedLevelSucceeds(f0, "very_important", lookup, render);
    var f1 := EnrichLevel(f0, "very_important", lookup, render).value;
    EnrichLevelKeepsOthers(f0, "very_important", lookup, render);
    assert Get(f1, "important") == Get(f0, "important");
    ShapedLevelSucceeds(f1, "important", lookup, render);
  }

  lemma ShapedOutlineSucceeds(data: Json, lookup: Lookup, render: Json -> string)
    requires OutlineShaped(data, lookup, render)
    ensures Attached(data, lookup, render).Success?
  {
    match Get(data.fields, "units")
    case None =>
    case Some(units) =>
      forall i | 0 <= i < |units.items| ensures EnrichUnit(units.items[i], lookup, render).Success? {
        ShapedUnitSucceeds(units.items[i], lookup, render);
      }
      EnrichUnitsElements(units.items, lookup, render);
  }

  // ---------------------------------------------------------------------------
  // The loops
  // ---------------------------------------------------------------------------

  lemma EnrichTopicsFailurePersists(topics: seq<Json>, k: nat, lookup: Lookup, render: Json -> string)
    requires k <= |topics| && EnrichTopics(topics[..k], lookup, render).Failure?
    ensures EnrichTopics(topics, lookup, render) == EnrichTopics(topics[..k], lookup, render)
  {
    MapAllFailurePersists(topics, k, t => TopicStep(t, lookup, render));
  }

  lemma EnrichUnitsFailurePersists(units: seq<Json>, k: nat, lookup: Lookup, render: Json -> string)
    requires k <= |units| && EnrichUnits(units[..k], lookup, render).Failure?
    ensures EnrichUnits(units, lookup, render) == EnrichUnits(units[..k], lookup, render)
  {
    MapAllFailurePersists(units, k, u => EnrichUnit(u, lookup, render));
  }

  /** One more pass of the units loop. */
  lemma EnrichUnitsExtend(units: seq<Json>, k: nat, lookup: Lookup, render: Json -> string)
    requires k < |units| && EnrichUnits(units[..k], lookup, render).Success?
    ensures EnrichUnits(units[..k + 1], lookup, render)
         == match EnrichUnit(units[k], lookup, render)
            case Failure(e) => Failure(e)
            case Success(u) => Success(EnrichUnits(units[..k], lookup, render).value + [u])
  {
    assert units[..k + 1][..k] == units[..k];
  }

  lemma {:induction false} EnrichLevelsFailurePersists(fields: seq<(string, Json)>, levels: seq<string>, k: nat, lookup: Lookup, render: Json -> string)
    requires k <= |levels| && EnrichLevels(fields, levels[..k], lookup, render).Failure?
    ensures EnrichLevels(fields, levels, lookup, render) == EnrichLevels(fields, levels[..k], lookup, render)
  {
    if k == |levels| {
      assert levels[..k] == levels;
    } else {
      var init := levels[..|levels| - 1];
      assert init[..k] == levels[..k];
      EnrichLevelsFailurePersists(fields, init, k, lookup, render);
    }
  }

  /** One more pass of the topics loop asks for one more topic. */
  lemma TopicQueriesExtend(topics: seq<Json>, k: nat, lookup: Lookup, render: Json -> string)
    requires k < |topics| && EnrichTopics(topics[..k], lookup, render).Success?
    ensures TopicQueries(topics[..k + 1], lookup, render) == TopicQueries(topics[..k], lookup, render) + [TopicQuery(topics[k], render)]
  {
    assert topics[..k + 1][..k] == topics[..k];
  }

  /** Once a prefix of the topics raises, no later topic is searched. */
  lemma {:induction false} TopicQueriesFailurePersists(topics: seq<Json>, k: nat, lookup: Lookup, render: Json -> string)
    requires k <= |topics| && EnrichTopics(topics[..k], lookup, render).Failure?
    ensures TopicQueries(topics, lookup, render) == TopicQueries(topics[..k], lookup, render)
  {
    if k == |topics| {
      assert topics[..k] == topics;
    } else {
      var init := topics[..|topics| - 1];
      assert init[..k] == topics[..k];
      TopicQueriesFailurePersists(init, k, lookup, render);
      EnrichTopicsFailurePersists(init, k, lookup, render);
    }
  }

  /** One pass of the topics loop makes one call, after those of the topics before it. */
  lemma TopicsReplayStep(cfg: SearchConfig, lookup: Lookup, e0: Entries, r0: seq<string>, topics: seq<Json>, k: nat,
                         e1: Entries, r1: seq<string>)
    requires k < |topics| && EnrichTopics(topics[..k], lookup, cfg.render).Success?
    requires Replayed(cfg, e0, r0, TopicQueries(topics[..k], lookup, cfg.render), e1, r1)
    ensures var q := TopicQuery(topics[k], cfg.render);
            Replayed(cfg, e0, r0, TopicQueries(topics[..k + 1], lookup, cfg.render),
                     CallEntries(cfg, e1, q), r1 + CallRequests(cfg, e1, q))
  {
    var q := TopicQuery(topics[k], cfg.render);
    ReplaySnoc(cfg, e0, r0, TopicQueries(topics[..k], lookup, cfg.render), e1, r1, q);
    TopicQueriesExtend(topics, k, lookup, cfg.render);
  }

  /** A topic whose search raises ends the topics loop: no later topic is searched. */
  lemma TopicsReplayStop(cfg: SearchConfig, lookup: Lookup, e0: Entries, r0: seq<string>, topics: seq<Json>, k: nat,
                         e2: Entries, r2: seq<string>)
    requires k < |topics| && EnrichTopics(topics[..k + 1], lookup, cfg.render).Failure?
    requires Replayed(cfg, e0, r0, TopicQueries(topics[..k + 1], lookup, cfg.render), e2, r2)
    ensures Replayed(cfg, e0, r0, TopicQueries(topics, lookup, cfg.render), e2, r2)
  {
    TopicQueriesFailurePersists(topics, k + 1, lookup, cfg.render);
  }

  lemma LevelsQueriesExtend(fields: seq<(string, Json)>, levels: seq<string>, k: nat, lookup: Lookup, render: Json -> string)
    requires k < |levels| && EnrichLevels(fields, levels[..k], lookup, render).Success?
    ensures LevelsQueries(fields, levels[..k + 1], lookup, render)
         == LevelsQueries(fields, levels[..k], lookup, render)
            + LevelQueries(EnrichLevels(fields, levels[..k], lookup, render).value, levels[k], lookup, render)
  {
    assert levels[..k + 1][..k] == levels[..k];
  }

  lemma {:induction false} LevelsQueriesFailurePersists(fields: seq<(string, Json)>, levels: seq<string>, k: nat, lookup: Lookup, render: Json -> string)
    requires k <= |levels| && EnrichLevels(fields, levels[..k], lookup, render).Failure?
    ensures LevelsQueries(fields, levels, lookup, render) == LevelsQueries(fields, levels[..k], lookup, render)
  {
    if k == |levels| {
      assert levels[..k] == levels;
    } else {
      var init := levels[..|levels| - 1];
      assert init[..k] == levels[..k];
      LevelsQueriesFailurePersists(fields, init, k, lookup, render);
      EnrichLevelsFailurePersists(fields, init, k, lookup, render);
    }
  }

  /**
   * One pass of the levels loop, on the fields the earlier passes left: its calls follow
   * theirs, and when it raises the loop stops there.
   */
  lemma LevelsReplayStep(cfg: SearchConfig, lookup: Lookup, e0: Entries, r0: seq<string>, fields0: seq<(string, Json)>,
                         levels: seq<string>, k: nat, fields: seq<(string, Json)>,
                         e1: Entries, r1: seq<string>, e2: Entries, r2: seq<string>)
    requires k < |levels| && EnrichLevels(fields0, levels[..k], lookup, cfg.render) == Success(fields)
    requires Replayed(cfg, e0, r0, LevelsQueries(fields0, levels[..k], lookup, cfg.render), e1, r1)
    requires Replayed(cfg, e1, r1, LevelQueries(fields, levels[k], lookup, cfg.render), e2, r2)
    ensures EnrichLevels(fields0, levels[..k + 1], lookup, cfg.render) == EnrichLevel(fields, levels[k], lookup, cfg.render)
    ensures Replayed(cfg, e0, r0, LevelsQueries(fields0, levels[..k + 1], lookup, cfg.render), e2, r2)
    ensures EnrichLevel(fields, levels[k], lookup, cfg.render).Failure? ==>
              && EnrichLevels(fields0, levels, lookup, cfg.render) == EnrichLevel(fields, levels[k], lookup, cfg.render)
              && Replayed(cfg, e0, r0, LevelsQueries(fields0, levels, lookup, cfg.render), e2, r2)
  {
    assert levels[..k + 1][..k] == levels[..k];
    ReplayedThen(cfg, e0, r0, LevelsQueries(fields0, levels[..k], lookup, cfg.render), e1, r1,
                 LevelQueries(fields, levels[k], lookup, cfg.render), e2, r2);
    LevelsQueriesExtend(fields0, levels, k, lookup, cfg.render);
    if EnrichLevel(fields, levels[k], lookup, cfg.render).Failure? {
      EnrichLevelsFailurePersists(fields0, levels, k + 1, lookup, cfg.render);
      LevelsQueriesFailurePersists(fields0, levels, k + 1, lookup, cfg.render);
    }
  }

  /**
   * One pass of the units loop: its calls follow those of the units before it, and when
   * the unit raises the loop stops there.
   */
  lemma UnitsReplayStep(cfg: SearchConfig, lookup: Lookup, e0: Entries, r0: seq<string>, units: seq<Json>, k: nat,
                        e1: Entries, r1: seq<string>, e2: Entries, r2: seq<string>)
    requires k < |units| && EnrichUnits(units[..k], lookup, cfg.render).Success?
    requires Replayed(cfg, e0, r0, UnitsQueries(units[..k], lookup, cfg.render), e1, r1)
    requires Replayed(cfg, e1, r1, UnitQueries(units[k], lookup, cfg.render), e2, r2)
    ensures Replayed(cfg, e0, r0, UnitsQueries(units[..k + 1], lookup, cfg.render), e2, r2)
  {
    ReplayedThen(cfg, e0, r0, UnitsQueries(units[..k], lookup, cfg.render), e1, r1,
                 UnitQueries(units[k], lookup, cfg.render), e2, r2);
    UnitsQueriesExtend(units, k, lookup, cfg.render);
  }

  /** A pass of the units loop whose unit raises: the loop raises the same exception. */
  lemma UnitsLoopFails(units: seq<Json>, k: nat, lookup: Lookup, render: Json -> string)
    requires k < |units| && EnrichUnits(units[..k], lookup, render).Success?
    requires EnrichUnit(units[k], lookup, render).Failure?
    ensures EnrichUnits(units[..k + 1], lookup, render).Failure?
    ensures EnrichUnits(units, lookup, render) == Failure(EnrichUnit(units[k], lookup, render).error)
  {
    EnrichUnitsExtend(units, k, lookup, render);
    EnrichUnitsFailurePersists(units, k + 1, lookup, render);
  }

  /** A pass of the units loop whose unit comes back: it is written where the unit stood. */
  lemma UnitsLoopRewrites(units: seq<Json>, k: nat, rewritten: seq<Json>, unit: Json, lookup: Lookup, render: Json -> string)
    requires k < |units| == |rewritten| && EnrichUnits(units[..k], lookup, render) == Success(rewritten[..k])
    requires EnrichUnit(units[k], lookup, render) == Success(unit)
    ensures EnrichUnits(units[..k + 1], lookup, render) == Success(rewritten[k := unit][..k + 1])
  {
    PrefixOfLonger(units, k);
    UpdatedPrefix(rewritten, k, unit);
    EnrichUnitsSnoc(units[..k + 1], rewritten[..k], unit, lookup, render);
  }

  lemma PrefixOfLonger(xs: seq<Json>, k: nat)
    requires k < |xs|
    ensures var p := xs[..k + 1]; p != [] && p[..|p| - 1] == xs[..k] && p[|p| - 1] == xs[k]
  {
    assert xs[..k + 1][..k] == xs[..k];
  }

  lemma UpdatedPrefix(xs: seq<Json>, k: nat, v: Json)
    requires k < |xs|
    ensures xs[k := v][..k + 1] == xs[..k] + [v]
  {
    assert xs[k := v][..k + 1] == xs[..k] + [v];
  }

  /** A returned unit is appended to the units before it. */
  lemma EnrichUnitsSnoc(units: seq<Json>, before: seq<Json>, unit: Json, lookup: Lookup, render: Json -> string)
    requires units != [] && EnrichUnits(units[..|units| - 1], lookup, render) == Success(before)
    requires EnrichUnit(units[|units| - 1], lookup, render) == Success(unit)
    ensures EnrichUnits(units, lookup, render) == Success(before + [unit])
  {
  }

  /** A unit that raises ends the units loop: no later unit is searched. */
  lemma UnitsReplayStop(cfg: SearchConfig, lookup: Lookup, e0: Entries, r0: seq<string>, units: seq<Json>, k: nat,
                        e2: Entries, r2: seq<string>)
    requires k < |units| && EnrichUnits(units[..k + 1], lookup, cfg.render).Failure?
    requires Replayed(cfg, e0, r0, UnitsQueries(units[..k + 1], lookup, cfg.render), e2, r2)
    ensures Replayed(cfg, e0, r0, UnitsQueries(units, lookup, cfg.render), e2, r2)
  {
    UnitsQueriesFailurePersists(units, k + 1, lookup, cfg.render);
  }

  lemma UnitsQueriesExtend(units: seq<Json>, k: nat, lookup: Lookup, render: Json -> string)
    requires k < |units| && EnrichUnits(units[..k], lookup, render).Success?
    ensures UnitsQueries(units[..k + 1], lookup, render) == UnitsQueries(units[..k], lookup, render) + UnitQueries(units[k], lookup, render)
  {
    assert units[..k + 1][..k] == units[..k];
  }

  lemma {:induction false} UnitsQueriesFailurePersists(units: seq<Json>, k: nat, lookup: Lookup, render: Json -> string)
    requires k <= |units| && EnrichUnits(units[..k], lookup, render).Failure?
    ensures UnitsQueries(units, lookup, render) == UnitsQueries(units[..k], lookup, render)
  {
    if k == |units| {
      assert units[..k] == units;
    } else {
      var init := units[..|units| - 1];
      assert init[..k] == units[..k];
      UnitsQueriesFailurePersists(init, k, lookup, render);
      EnrichUnitsFailurePersists(init, k, lookup, render);
    }
  }

  /** The innermost loop: one search per topic, appending a record to a fresh list. */
  method EnrichTopicList(topics: seq<Json>, cache: CachedSearch) returns (r: Result<seq<Json>, string>)
    requires cache.Valid()
    modifies cache
    ensures cache.Valid()
    ensures r == EnrichTopics(topics, cache.search, cache.cfg.render)
    ensures Replayed(cache.cfg, old(cache.entries), old(cache.Requests),
                     TopicQueries(topics, cache.search, cache.cfg.render), cache.entries, cache.Requests)
  {
    var enriched: seq<Json> := [];
    var t := 0;
    ReplayNone(cache.cfg, cache.entries, cache.Requests);
    while t < |topics|
      invariant 0 <= t <= |topics|
      invariant cache.Valid()
      invariant EnrichTopics(topics[..t], cache.search, cache.cfg.render) == Success(enriched)
      invariant Replayed(cache.cfg, old(cache.entries), old(cache.Requests),
                         TopicQueries(topics[..t], cache.search, cache.cfg.render), cache.entries, cache.Requests)
    {
      var topic := topics[t];
      assert topics[..t + 1][..t] == topics[..t];
      var query := TopicQuery(topic, cache.cfg.render);
      ghost var entries, requests := cache.entries, cache.Requests;
      var playlist := cache.Call(query);
      TopicsReplayStep(cache.cfg, cache.search, old(cache.entries), old(cache.Requests), topics, t, entries, requests);
      if playlist.Failure? {
        EnrichTopicsFailurePersists(topics, t + 1, cache.search, cache.cfg.render);
        TopicsReplayStop(cache.cfg, cache.search, old(cache.entries), old(cache.Requests), topics, t,
                         cache.entries, cache.Requests);
        return Failure(playlist.error);
      }
      enriched := enriched + [TopicRecord(topic, playlist.value)];
      t := t + 1;
    }
    assert topics[..t] == topics;
    return Success(enriched);
  }

  /** One pass of the levels loop: build `enriched` for `level`, then assign `unit[level]`. */
  method EnrichLevelInPlace(fields: seq<(string, Json)>, level: string, cache: CachedSearch)
    returns (r: Result<seq<(string, Json)>, string>)
    requires cache.Valid()
    modifies cache
    ensures cache.Valid()
    ensures r == EnrichLevel(fields, level, cache.search, cache.cfg.render)
    ensures Replayed(cache.cfg, old(cache.entries), old(cache.Requests),
                     LevelQueries(fields, level, cache.search, cache.cfg.render), cache.entries, cache.Requests)
  {
    var topics := Iterate(GetOr(fields, level, JArray([])));
    if topics.Failure? {
      ReplayNone(cache.cfg, cache.entries, cache.Requests);
      return Failure(topics.error);
    }
    var enriched := EnrichTopicList(topics.value, cache);
    if enriched.Failure? {
      return Failure(enriched.error);
    }
    return Success(Put(fields, level, JArray(enriched.value)));
  }

  /** The levels loop on one unit, assigning each level in place on the unit's fields. */
  method EnrichUnitInPlace(unit: Json, cache: CachedSearch) returns (r: Result<Json, string>)
    requires cache.Valid()
    modifies cache
    ensures cache.Valid()
    ensures r == EnrichUnit(unit, cache.search, cache.cfg.render)
    ensures Replayed(cache.cfg, old(cache.entries), old(cache.Requests),
                     UnitQueries(unit, cache.search, cache.cfg.render), cache.entries, cache.Requests)
  {
    ReplayNone(cache.cfg, cache.entries, cache.Requests);
    if !unit.JObject? {
      return Failure(NoAttribute(unit, "get"));
    }
    var fields := unit.fields;
    var li := 0;
    while li < |Levels|
      invariant 0 <= li <= |Levels|
      invariant cache.Valid()
      invariant EnrichLevels(unit.fields, Levels[..li], cache.search, cache.cfg.render) == Success(fields)
      invariant Replayed(cache.cfg, old(cache.entries), old(cache.Requests),
                         LevelsQueries(unit.fields, Levels[..li], cache.search, cache.cfg.render), cache.entries, cache.Requests)
    {
      assert Levels[..li + 1][..li] == Levels[..li];
      ghost var entries, requests := cache.entries, cache.Requests;
      var enriched := EnrichLevelInPlace(fields, Levels[li], cache);
      LevelsReplayStep(cache.cfg, cache.search, old(cache.entries), old(cache.Requests), unit.fields, Levels, li, fields,
                       entries, requests, cache.entries, cache.Requests);
      if enriched.Failure? {
        return Failure(enriched.error);
      }
      fields := enriched.value;
      li := li + 1;
    }
    assert Levels[..li] == Levels;
    return Success(JObject(fields));
  }

  /** The units loop: each unit is rewritten where it stands in the list. */
  method EnrichUnitList(units: seq<Json>, cache: CachedSearch) returns (r: Result<seq<Json>, string>)
    requires cache.Valid()
    modifies cache
    ensures cache.Valid()
    ensures r == EnrichUnits(units, cache.search, cache.cfg.render)
    ensures Replayed(cache.cfg, old(cache.entries), old(cache.Requests),
                     UnitsQueries(units, cache.search, cache.cfg.render), cache.entries, cache.Requests)
  {
    var rewritten := units;
    var u := 0;
    ReplayNone(cache.cfg, cache.entries, cache.Requests);
    while u < |units|
      invariant 0 <= u <= |units| && |rewritten| == |units|
      invariant cache.Valid()
      invariant EnrichUnits(units[..u], cache.search, cache.cfg.render) == Success(rewritten[..u])
      invariant Replayed(cache.cfg, old(cache.entries), old(cache.Requests),
                         UnitsQueries(units[..u], cache.search, cache.cfg.render), cache.entries, cache.Requests)
    {
      ghost var entries, requests := cache.entries, cache.Requests;
      var unit := EnrichUnitInPlace(units[u], cache);
      UnitsReplayStep(cache.cfg, cache.search, old(cache.entries), old(cache.Requests), units, u,
                      entries, requests, cache.entries, cache.Requests);
      if unit.Failure? {
        UnitsLoopFails(units, u, cache.search, cache.cfg.render);
        UnitsReplayStop(cache.cfg, cache.search, old(cache.entries), old(cache.Requests), units, u,
                        cache.entries, cache.Requests);
        return Failure(unit.error);
      }
      UnitsLoopRewrites(units, u, rewritten, unit.value, cache.search, cache.cfg.render);
      rewritten := rewritten[u := unit.value];
      u := u + 1;
    }
    assert units[..u] == units && rewritten[..u] == rewritten;
    return Success(rewritten);
  }

  /** `attach_playlists(data)`. */
  method AttachPlaylists(data: Json, cache: CachedSearch) returns (r: Result<Json, string>)
    requires cache.Valid()
    modifies cache
    ensures cache.Valid()
    ensures r == Attached(data, cache.search, cache.cfg.render)
    ensures Replayed(cache.cfg, old(cache.entries), old(cache.Requests),
                     AttachedQueries(data, cache.search, cache.cfg.render), cache.entries, cache.Requests)
  {
    if !data.JObject? {
      ReplayNone(cache.cfg, cache.entries, cache.Requests);
      return Failure(NoAttribute(data, "get"));
    }
    var units := GetOr(data.fields, "units", JArray([]));
    var iterated := Iterate(units);
    if iterated.Failure? {
      ReplayNone(cache.cfg, cache.entries, cache.Requests);
      return Failure(iterated.error);
    }
    var rewritten := EnrichUnitList(iterated.value, cache);
    if rewritten.Failure? {
      return Failure(rewritten.error);
    }
    if Get(data.fields, "units").Some? && units.JArray? {
      return Success(JObject(Put(data.fields, "units", JArray(rewritten.value))));
    }
    return Success(data);
  }
}
