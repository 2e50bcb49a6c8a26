/** `analytics_snapshot.py`: what the report of a run says, told by the fields of the documents it was
    given: the value of each metric, every conclusion, the retention axis and what stops a run. */
module AnalyticsConclusions {
  import opened JsonValue
  import opened Sorting
  import opened AnalyticsSnapshot

  // ----- the value of a metric -----

  lemma {:induction false} KeepAppend<T(!new)>(xs: seq<T>, ys: seq<T>, p: T -> bool)
    ensures Keep(xs + ys, p) == Keep(xs, p) + Keep(ys, p)
  {
    if xs == [] {
      assert xs + ys == ys;
    } else {
      assert (xs + ys)[1..] == xs[1..] + ys;
      KeepAppend(xs[1..], ys, p);
    }
  }

  function Positions<T(!new)>(xs: seq<T>, p: T -> bool): set<int> { set k | 0 <= k < |xs| && p(xs[k]) }

  lemma PositionsMore<T(!new)>(xs: seq<T>, x: T, p: T -> bool)
    ensures Positions(xs + [x], p) == Positions(xs, p) + if p(x) then {|xs|} else {}
    ensures |xs| !in Positions(xs, p)
  {}

  /** Keeping is counting positions. */
  lemma {:induction false} KeepPositions<T(!new)>(xs: seq<T>, p: T -> bool)
    ensures |Keep(xs, p)| == |Positions(xs, p)|
  {
    if xs == [] {
      assert Positions(xs, p) == {};
    } else {
      var front, x := xs[..|xs| - 1], xs[|xs| - 1];
      assert xs == front + [x];
      KeepPositions(front, p);
      KeepAppend(front, [x], p);
      assert [x][1..] == [] && Keep([x], p) == if p(x) then [x] else [];
      hide Positions;
      PositionsMore(front, x, p);
    }
  }

  /** The positions of the observations with this action and transport. */
  function Places(obs: seq<Json>, action: string, transport: string): set<int> {
    set k | 0 <= k < |obs| && Get(obs[k], "action") == Str(action) && Get(obs[k], "transport") == Str(transport)
  }

  /** The session and object of each web page render that has a session. */
  function Views(obs: seq<Json>): set<(Json, Json)> {
    set k | k in Places(obs, "page_render", "web") && Get(obs[k], "session_ref") != Null
      :: (Get(obs[k], "session_ref"), Get(obs[k], "object_ref"))
  }

  function RendersWithoutSession(obs: seq<Json>): set<int> {
    set k | k in Places(obs, "page_render", "web") && Get(obs[k], "session_ref") == Null
  }

  /** The value each metric id stands for, None for any other. */
  function ValueOf(id: Json, obs: seq<Json>): Option<nat> {
    if id == Str("http_request_count") then Some(|Places(obs, "http_request", "web")|)
    else if id == Str("page_render_count") then Some(|Places(obs, "page_render", "web")|)
    else if id == Str("api_object_read_count") then Some(|Places(obs, "api_object_read", "api")|)
    else if id == Str("mcp_resource_read_count") then Some(|Places(obs, "mcp_resource_read", "mcp")|)
    else if id == Str("page_view_count") then Some(|Views(obs)| + |RendersWithoutSession(obs)|)
    else None
  }

  lemma CountedPlaces(obs: seq<Json>, p: Json -> bool, action: string, transport: string)
    requires forall o :: p(o) == Counted(o, action, transport)
    ensures |Keep(obs, p)| == |Places(obs, action, transport)|
  {
    KeepPositions(obs, p);
    hide Keep;
    assert Places(obs, action, transport) == Positions(obs, p);
  }

  lemma {:induction false} KeepTwice<T(!new)>(xs: seq<T>, p: T -> bool, q: T -> bool, both: T -> bool)
    requires forall x :: both(x) == (p(x) && q(x))
    ensures Keep(Keep(xs, p), q) == Keep(xs, both)
  {
    if xs != [] {
      KeepTwice(xs[1..], p, q, both);
      if p(xs[0]) {
        assert Keep(xs, p)[1..] == Keep(xs[1..], p);
      } else {
        assert Keep(xs, p) == Keep(xs[1..], p);
      }
    }
  }

  lemma SessionViews(obs: seq<Json>)
    ensures Distinct(Keys(Keep(Keep(obs, IsRender), HasSession), ViewKey)) == Views(obs)
  {
    hide Keep, Keys;
    var kept := Keep(Keep(obs, IsRender), HasSession);
    var listed := Distinct(Keys(kept, ViewKey));
    forall v | v in Views(obs) ensures v in listed { ViewListed(obs, v); }
    forall v | v in listed ensures v in Views(obs) { ListedView(obs, v); }
  }

  lemma ViewListed(obs: seq<Json>, v: (Json, Json))
    requires v in Views(obs)
    ensures v in Distinct(Keys(Keep(Keep(obs, IsRender), HasSession), ViewKey))
  {
    hide Keep, Keys;
    var kept := Keep(Keep(obs, IsRender), HasSession);
    var k :| k in Places(obs, "page_render", "web") && Get(obs[k], "session_ref") != Null
             && v == (Get(obs[k], "session_ref"), Get(obs[k], "object_ref"));
    assert IsRender(obs[k]) && obs[k] in Keep(obs, IsRender) && obs[k] in kept;
    hide Get, IsRender;
    var n :| 0 <= n < |kept| && kept[n] == obs[k];
    assert Keys(kept, ViewKey)[n] == v;
  }

  lemma ListedView(obs: seq<Json>, v: (Json, Json))
    requires v in Distinct(Keys(Keep(Keep(obs, IsRender), HasSession), ViewKey))
    ensures v in Views(obs)
  {
    hide Keep, Keys, Get;
    var kept := Keep(Keep(obs, IsRender), HasSession);
    var n :| 0 <= n < |kept| && Keys(kept, ViewKey)[n] == v;
    assert kept[n] in kept && kept[n] in Keep(obs, IsRender) && kept[n] in obs;
    var k :| 0 <= k < |obs| && obs[k] == kept[n];
    assert k in Places(obs, "page_render", "web");
  }

  lemma NullRenders(obs: seq<Json>, q: Json -> bool)
    requires forall o :: q(o) == !HasSession(o)
    ensures |Keep(Keep(obs, IsRender), q)| == |RendersWithoutSession(obs)|
  {
    var both := (o: Json) => IsRender(o) && q(o);
    KeepTwice(obs, IsRender, q, both);
    KeepPositions(obs, both);
    hide Keep, Get;
    assert RendersWithoutSession(obs) == Positions(obs, both);
  }

  lemma DirectRecounts(obs: seq<Json>)
    ensures Recount(HttpRequests, obs) == |Places(obs, "http_request", "web")|
    ensures Recount(PageRenders, obs) == |Places(obs, "page_render", "web")|
    ensures Recount(ApiObjectReads, obs) == |Places(obs, "api_object_read", "api")|
    ensures Recount(McpResourceReads, obs) == |Places(obs, "mcp_resource_read", "mcp")|
  {
    hide Places, Keep, Counted;
    CountedPlaces(obs, o => Counted(o, "http_request", "web"), "http_request", "web");
    CountedPlaces(obs, IsRender, "page_render", "web");
    CountedPlaces(obs, o => Counted(o, "api_object_read", "api"), "api_object_read", "api");
    CountedPlaces(obs, o => Counted(o, "mcp_resource_read", "mcp"), "mcp_resource_read", "mcp");
  }

  lemma ViewRecount(obs: seq<Json>)
    ensures Recount(PageViews, obs) == |Views(obs)| + |RendersWithoutSession(obs)|
  {
    hide Views, RendersWithoutSession, Keep, Distinct, Keys, IsRender, HasSession;
    SessionViews(obs);
    NullRenders(obs, o => !HasSession(o));
  }

  /** The recount of every id that is a supported metric, and of no other: four metrics count the
      positions of one action and transport, page views count the distinct pairs of session and object
      and the renders without a session. */
  lemma RecountExactly(id: Json, obs: seq<Json>)
    ensures ValueOf(id, obs) == match MetricOf(id) case Some(m) => Some(Recount(m, obs)) case None => None
  {
    hide Recount, Places, Views, RendersWithoutSession;
    DirectRecounts(obs);
    ViewRecount(obs);
  }

  // ----- the conclusions -----

  /** The metric a supported id names. */
  function IdOf(m: Metric): string {
    match m
    case HttpRequests => "http_request_count"
    case PageRenders => "page_render_count"
    case PageViews => "page_view_count"
    case ApiObjectReads => "api_object_read_count"
    case McpResourceReads => "mcp_resource_read_count"
  }

  lemma MetricOfExactly(id: Json, m: Metric)
    ensures MetricOf(id) == Some(m) <==> id == Str(IdOf(m))
  {}

  /** Python's `==` on parsed values: a boolean equals the number it counts as. */
  lemma SameExactly(a: Json, b: Json)
    ensures a.Bool? && b.Int? ==> (Same(a, b) <==> b.n == if a.b then 1 else 0)
    ensures a.Int? && b.Bool? ==> (Same(a, b) <==> a.n == if b.b then 1 else 0)
    ensures a.Bool? == b.Bool? ==> (Same(a, b) <==> Abs(a) == Abs(b))
    ensures (a.Str? || a.Null?) && (b.Str? || b.Null?) ==> (Same(a, b) <==> a == b)
  {}

  predicate Digestible(o: Oracles, doc: Json, claim: Json) { o.digest(doc).Some? && claim == Str(o.digest(doc).value) }

  /** A partition document, whose observations are all valid objects with ids of their own. */
  predicate Shaped(p: Json) {
    p.Obj? && Get(p, "observations").Arr? && HasKey(p.members, "window_start") && HasKey(p.members, "window_end")
  }

  predicate AllValid(o: Oracles, obs: seq<Json>) {
    forall k :: 0 <= k < |obs| ==> obs[k].Obj? && o.validObservation(obs[k])
  }

  predicate AllNamed(obs: seq<Json>) {
    && (forall k :: 0 <= k < |obs| ==> obs[k].Obj?)
    && (forall j, k :: 0 <= j < k < |obs| ==> !Same(Get(obs[j], "event_id"), Get(obs[k], "event_id")))
  }

  predicate Usable(o: Oracles, p: Json) {
    Shaped(p) && AllValid(o, Get(p, "observations").items) && AllNamed(Get(p, "observations").items)
  }

  /** Whether a conclusion is drawn at all. */
  predicate Drawn(o: Oracles, i: Inputs, c: Conclusion) {
    match c
    case PartitionShape => i.partition.Some?
    case ObservationProfile => i.partition.Some?
    case EventIdUniqueness => i.partition.Some?
    case WindowBinding => i.partition.Some?
    case InputPartitionDigest => i.partition.Some? && Usable(o, i.partition.value)
    case ValueRecomputation =>
      i.partition.Some? && Usable(o, i.partition.value) && exists m :: Get(i.snapshot, "metric_id") == Str(IdOf(m))
    case _ => true
  }

  /** What a drawn conclusion says of the documents. */
  predicate Holds(o: Oracles, i: Inputs, c: Conclusion) {
    var s, d := i.snapshot, i.definition;
    var p := if i.partition.Some? then i.partition.value else Null;
    var obs := if Get(p, "observations").Arr? then Get(p, "observations").items else [];
    match c
    case RetentionSchedule => o.validSchedule(i.schedule) && o.digest(i.schedule) == Some(o.schedulePin)
    case SnapshotShape => o.validSnapshot(s)
    case MetricProfileBinding =>
      (exists m :: Get(s, "metric_id") == Str(IdOf(m))) && Get(s, "metric_version") == Str("0.1")
    case MetricIdentity =>
      && Same(Get(d, "metric_id"), Get(s, "metric_id"))
      && Same(Get(d, "version"), Get(s, "metric_version"))
    case DerivationVersion =>
      && Get(s, "derivation_version") == Str(o.derivationVersion)
      && Get(d, "derivation_version") == Str(o.derivationVersion)
    case DefinitionDigest => Digestible(o, d, Get(s, "metric_definition_digest"))
    case DefinitionPin => exists m :: Get(s, "metric_id") == Str(IdOf(m)) && o.digest(d) == Some(o.definitionPin(m))
    case WindowTimestamps => o.artifactTime(Get(s, "window_start")) && o.artifactTime(Get(s, "window_end"))
    case PartitionShape => Shaped(p)
    case ObservationProfile => Shaped(p) && AllValid(o, obs)
    case EventIdUniqueness => Shaped(p) && AllNamed(obs)
    case WindowBinding =>
      && Shaped(p) && Same(Get(p, "window_start"), Get(s, "window_start"))
      && Same(Get(p, "window_end"), Get(s, "window_end"))
    case InputPartitionDigest => Digestible(o, CanonicalPartition(p), Get(s, "input_partition_digest"))
    case ValueRecomputation =>
      var n := ValueOf(Get(s, "metric_id"), obs); n.Some? && Same(Get(s, "value"), Int(n.value))
    case SnapshotDigest => Digestible(o, Body(o, i), Get(s, "snapshot_digest"))
    case PrivacyClassBinding => Get(s, "privacy_class") == Str("ANONYMOUS_AGGREGATE")
  }

  lemma SupportedExactly(i: Inputs)
    ensures Supported(i).Some? <==> exists m :: Get(i.snapshot, "metric_id") == Str(IdOf(m))
    ensures forall m :: Supported(i) == Some(m) <==> Get(i.snapshot, "metric_id") == Str(IdOf(m))
  {
    forall m ensures Supported(i) == Some(m) <==> Get(i.snapshot, "metric_id") == Str(IdOf(m)) {
      MetricOfExactly(Get(i.snapshot, "metric_id"), m);
    }
    hide MetricOf, IdOf;
  }

  lemma NamedExactly(p: Json)
    requires Shaped(p) && IdsHashable(Observations(p))
    ensures UniqueIds(p) <==> AllNamed(Get(p, "observations").items)
  {
    var obs := Get(p, "observations").items;
    DistinctCount(Ids(obs));
    hide Distinct, Ids, NoRepeats, IdsHashable;
    if forall k :: 0 <= k < |obs| ==> obs[k].Obj? {
      NamedObjects(obs);
    } else {
      var k :| 0 <= k < |obs| && !obs[k].Obj?;
      FewerIds(obs, k);
    }
  }

  lemma NamedObjects(obs: seq<Json>)
    requires IdsHashable(obs) && forall k :: 0 <= k < |obs| ==> obs[k].Obj?
    ensures |Ids(obs)| == |obs|
    ensures NoRepeats(Ids(obs)) <==> AllNamed(obs)
  {
    KeepAll(obs, IsObject);
    hide Keep, IdsHashable, Same, EventId, Distinct;
    assert forall k :: 0 <= k < |obs| ==> Ids(obs)[k] == EventId(obs[k]);
    hide Ids;
    forall j, k | 0 <= j < k < |obs|
      ensures Same(Get(obs[j], "event_id"), Get(obs[k], "event_id")) <==> Ids(obs)[j] == Ids(obs)[k]
    {
      IdHashable(obs, j);
      IdHashable(obs, k);
      SameIds(obs[j], obs[k]);
    }
  }

  lemma SameIds(x: Json, y: Json)
    requires !EventId(x).Arr? && !EventId(x).Obj? && !EventId(y).Arr? && !EventId(y).Obj?
    ensures Same(Get(x, "event_id"), Get(y, "event_id")) <==> EventId(x) == EventId(y)
  {
    hide Get;
  }

  lemma FewerIds(obs: seq<Json>, k: nat)
    requires k < |obs| && !obs[k].Obj?
    ensures |Ids(obs)| < |obs|
  {
    NotAllKept(obs, IsObject, k);
  }

  lemma IdHashable(obs: seq<Json>, k: nat)
    requires IdsHashable(obs) && k < |obs| && obs[k].Obj?
    ensures !EventId(obs[k]).Arr? && !EventId(obs[k]).Obj?
  {
    var kept := Keep(obs, IsObject);
    assert obs[k] in kept;
    hide Keep, EventId;
    var n :| 0 <= n < |kept| && kept[n] == obs[k];
    assert Ids(obs)[n] == EventId(obs[k]);
    assert EventId(obs[k]) in Distinct(Ids(obs));
  }

  lemma {:induction false} NotAllKept<T(!new)>(xs: seq<T>, p: T -> bool, k: nat)
    requires k < |xs| && !p(xs[k])
    ensures |Keep(xs, p)| < |xs|
  {
    if k > 0 { NotAllKept(xs[1..], p, k - 1); }
  }

  lemma ValidExactly(o: Oracles, p: Json)
    requires Shaped(p)
    ensures ProfileOk(o, p) <==> AllValid(o, Get(p, "observations").items)
  {
    var obs := Get(p, "observations").items;
    assert forall k :: 0 <= k < |obs| ==> obs[k] in obs;
  }

  lemma UsableExactly(o: Oracles, p: Json)
    requires IdsHashable(Observations(p))
    ensures PartitionShaped(p) <==> Shaped(p)
    ensures Countable(o, p) <==> Usable(o, p)
  {
    if Shaped(p) {
      NamedExactly(p);
      ValidExactly(o, p);
    }
    hide UniqueIds, AllNamed, AllValid;
  }

  lemma MarkExactly(o: Oracles, i: Inputs, c: Conclusion)
    requires i.partition.Some? ==> IdsHashable(Observations(i.partition.value))
    ensures MarkOf(o, i, c) == if !Drawn(o, i, c) then NotEvaluated else if Holds(o, i, c) then Pass else Fail
  {
    SupportedExactly(i);
    hide Body, Same, IdsHashable;
    match c
    case PartitionShape | ObservationProfile | EventIdUniqueness | WindowBinding | InputPartitionDigest
       | ValueRecomputation => PartitionMarkExactly(o, i, c);
    case _ =>
  }

  lemma PartitionMarkExactly(o: Oracles, i: Inputs, c: Conclusion)
    requires i.partition.Some? ==> IdsHashable(Observations(i.partition.value))
    requires c in {PartitionShape, ObservationProfile, EventIdUniqueness, WindowBinding, InputPartitionDigest,
                   ValueRecomputation}
    ensures MarkOf(o, i, c) == if !Drawn(o, i, c) then NotEvaluated else if Holds(o, i, c) then Pass else Fail
  {
    SupportedExactly(i);
    if i.partition.Some? {
      var p := i.partition.value;
      UsableExactly(o, p);
      if Shaped(p) {
        NamedExactly(p);
        ValidExactly(o, p);
      }
      RecountExactly(Get(i.snapshot, "metric_id"), Observations(p));
      ValueSame(i);
    }
    hide Usable, Countable, CanonicalPartition, UniqueIds, ProfileOk, AllNamed, AllValid, ValueOf, Recount, MetricOf,
         IdOf, Same, IdsHashable, ValueClaimed, Digestible;
    match c
    case InputPartitionDigest => if CountableInput(o, i) { PartitionDigestExactly(o, i); }
    case _ =>
  }

  lemma ValueSame(i: Inputs)
    ensures forall n: nat :: ValueClaimed(i, n) <==> Same(Get(i.snapshot, "value"), Int(n))
  {}

  lemma PartitionDigestExactly(o: Oracles, i: Inputs)
    requires CountableInput(o, i)
    ensures Claimed(i, "input_partition_digest", PartitionDigest(o, i)) <==>
      Digestible(o, CanonicalPartition(i.partition.value), Get(i.snapshot, "input_partition_digest"))
  {
    hide CanonicalPartition, Countable;
  }

  // ----- what is digested -----

  /** The partition's observations in the order of their ids, each as often as it is there, and its
      window. */
  lemma CanonicalExactly(p: Json)
    ensures var c, sorted := CanonicalPartition(p), Get(CanonicalPartition(p), "observations");
      && c.Obj? && |c.members| == 3
      && sorted.Arr? && multiset(sorted.items) == multiset(Observations(p))
      && (forall j, k :: 0 <= j < k < |sorted.items| && Get(sorted.items[j], "event_id").Str?
                         && Get(sorted.items[k], "event_id").Str? ==>
            StrLe(Get(sorted.items[j], "event_id").s, Get(sorted.items[k], "event_id").s))
      && Get(c, "window_start") == Get(p, "window_start") && Get(c, "window_end") == Get(p, "window_end")
  {
    var sorted := Sort(Observations(p), ById);
    ByIdPreorder();
    SortOrdered(Observations(p), ById);
    hide Sort, Observations, StrLe;
    var ms := CanonicalPartition(p).members;
    assert "observations"[0] == 'o' && "window_end"[0] == 'w' && "window_start"[7] != "window_end"[7];
    LookupAt(ms, "observations", 0);
    LookupAt(ms, "window_end", 1);
    LookupAt(ms, "window_start", 2);
    forall j, k | 0 <= j < k < |sorted| && Get(sorted[j], "event_id").Str? && Get(sorted[k], "event_id").Str?
      ensures StrLe(Get(sorted[j], "event_id").s, Get(sorted[k], "event_id").s)
    {
      assert ById(sorted[j], sorted[k]);
    }
  }

  lemma BodyKeys()
    ensures var k := ["derivation_version", "input_partition_digest", "metric_definition_digest", "metric_id",
                      "metric_version", "value", "window_end", "window_start"];
      NoRepeats(k)
  {
    assert "derivation_version"[0] == 'd' && "input_partition_digest"[0] == 'i' && "value"[0] == 'v';
    assert "metric_definition_digest"[0] == 'm' && "metric_id"[0] == 'm' && "metric_version"[0] == 'm';
    assert "metric_definition_digest"[7] == 'd' && "metric_id"[7] == 'i' && "metric_version"[7] == 'v';
    assert "window_end"[0] == 'w' && "window_start"[0] == 'w' && "window_end"[7] == 'e' && "window_start"[7] == 's';
  }

  lemma MemberAt(ms: seq<Member>, keys: seq<string>, n: nat)
    requires |ms| == |keys| && NoRepeats(keys) && n < |ms| && forall k :: 0 <= k < |ms| ==> ms[k].key == keys[k]
    ensures Lookup(ms, keys[n]) == ms[n].value
  {
    hide Lookup;
    LookupAt(ms, keys[n], n);
  }

  /** Eight fields of the snapshot, with the recomputed partition digest in place of the claimed one. */
  lemma BodyExactly(o: Oracles, i: Inputs)
    ensures var b, s, d := Body(o, i), i.snapshot, PartitionDigest(o, i);
      && b.Obj? && |b.members| == 8
      && Get(b, "derivation_version") == Get(s, "derivation_version")
      && Get(b, "input_partition_digest")
         == (if d.Some? && d.value != "" then Str(d.value) else Get(s, "input_partition_digest"))
      && Get(b, "metric_definition_digest") == Get(s, "metric_definition_digest")
      && Get(b, "metric_id") == Get(s, "metric_id") && Get(b, "metric_version") == Get(s, "metric_version")
      && Get(b, "value") == Get(s, "value")
      && Get(b, "window_end") == Get(s, "window_end") && Get(b, "window_start") == Get(s, "window_start")
  {
    var ms := Body(o, i).members;
    var keys := ["derivation_version", "input_partition_digest", "metric_definition_digest", "metric_id",
                 "metric_version", "value", "window_end", "window_start"];
    BodyKeys();
    hide PartitionDigest, Lookup, NoRepeats;
    MemberAt(ms, keys, 0);
    MemberAt(ms, keys, 1);
    MemberAt(ms, keys, 2);
    MemberAt(ms, keys, 3);
    MemberAt(ms, keys, 4);
    MemberAt(ms, keys, 5);
    MemberAt(ms, keys, 6);
    MemberAt(ms, keys, 7);
  }

  // ----- the retention axis -----

  /** The axis is judged under the pinned schedule and a window that can be read. */
  predicate RetentionJudged(o: Oracles, i: Inputs) {
    && o.validSchedule(i.schedule) && o.digest(i.schedule) == Some(o.schedulePin)
    && o.artifactTime(Get(i.snapshot, "window_start")) && o.artifactTime(Get(i.snapshot, "window_end"))
  }

  predicate Past(o: Oracles, i: Inputs) { o.pastDeadline(i.schedule, Get(i.snapshot, "window_end"), i.asOf) }

  /** A supplied source conforms until its deadline; one declared expired conforms, and contradicts itself
      before the deadline; a withdrawn one conforms; of any other nothing is concluded. */
  lemma RetentionExactly(o: Oracles, i: Inputs)
    ensures var r := RetentionOf(o, i);
      && (r == None <==> RetentionJudged(o, i) && i.status == AbsentExpired && !Past(o, i))
      && (r != None ==>
            && (r.value.conformance == Nonconforming <==> RetentionJudged(o, i) && i.status == Supplied && Past(o, i))
            && (r.value.conformance == Conforming <==>
                  && RetentionJudged(o, i)
                  && ((i.status == Supplied && !Past(o, i)) || i.status == AbsentExpired
                      || i.status == AbsentWithdrawn))
            && (r.value.state == FullRecomputation <==> RetentionJudged(o, i) && i.status == Supplied)
            && (r.value.state == SourceExpired <==> RetentionJudged(o, i) && i.status == AbsentExpired)
            && (r.value.state == SourceWithdrawn <==> RetentionJudged(o, i) && i.status == AbsentWithdrawn)
            && (r.value.state == SourceUnavailable <==> RetentionJudged(o, i) && i.status == AbsentUnexplained))
  {
    hide Get;
  }

  // ----- what stops a run -----

  predicate Container(j: Json) { j.Arr? || j.Obj? }

  predicate BadIds(p: Json) {
    Shaped(p) && var obs := Get(p, "observations").items;
    exists k :: 0 <= k < |obs| && obs[k].Obj? && Container(Get(obs[k], "event_id"))
  }

  lemma BadIdsExactly(p: Json)
    ensures IdsHashable(Observations(p)) <==> !BadIds(p)
  {
    var obs := Observations(p);
    var kept := Keep(obs, IsObject);
    hide Keep, Get;
    if IdsHashable(obs) {
      forall k | 0 <= k < |obs| && obs[k].Obj? ensures !Container(Get(obs[k], "event_id")) { IdHashable(obs, k); }
    }
    if !BadIds(p) {
      forall id | id in Distinct(Ids(obs)) ensures !id.Arr? && !id.Obj? {
        var n :| 0 <= n < |Ids(obs)| && Ids(obs)[n] == id;
        assert kept[n] in kept && kept[n] in obs;
        var k :| 0 <= k < |obs| && obs[k] == kept[n];
        assert !Container(Get(obs[k], "event_id"));
      }
    }
  }

  /** A run stops at the earliest of: a misuse, a schedule without a digest, a metric id or a definition
      that cannot be used, event ids that cannot, a partition without a digest, a contradiction. */
  lemma StopsExactly(o: Oracles, i: Inputs)
    ensures var out := OutcomeOf(o, i);
      var usage := (i.status == Supplied) != i.partition.Some? || !o.callerTime(i.asOf);
      var schedule := o.validSchedule(i.schedule) && o.digest(i.schedule).None?;
      var id := Container(Get(i.snapshot, "metric_id"));
      var definition := o.digest(i.definition).None?;
      var ids := i.partition.Some? && BadIds(i.partition.value);
      var partition := i.partition.Some? && Usable(o, i.partition.value)
                       && o.digest(CanonicalPartition(i.partition.value)).None?;
      var contradiction := RetentionJudged(o, i) && i.status == AbsentExpired && !Past(o, i);
      && (out == Raised(AnalyticsSnapshot.Usage) <==> usage)
      && (out == Raised(Unhashable) <==> !usage && !schedule && (id || (!definition && ids)))
      && (out == Raised(Uncanonical) <==> !usage && (schedule || (!id && (definition || (!ids && partition)))))
      && (out == Raised(Contradiction) <==>
            !usage && !schedule && !id && !definition && !ids && !partition && contradiction)
      && (out.Returned? <==>
            !usage && !schedule && !id && !definition && !ids && !partition && !contradiction)
  {
    RetentionExactly(o, i);
    if i.partition.Some? {
      BadIdsExactly(i.partition.value);
      if IdsHashable(Observations(i.partition.value)) { UsableExactly(o, i.partition.value); }
    }
    hide RetentionOf, RetentionJudged, Past, BadIds, IdsHashable, Usable, Countable, CanonicalPartition, MarksOf, Codes,
         MetricIntegrity, Body, Recounted, MarkOf, Distinct;
  }

  // ----- the report -----

  /** Every conclusion of a returned report. */
  lemma MarksExactly(o: Oracles, i: Inputs, c: Conclusion)
    requires OutcomeOf(o, i).Returned?
    ensures OutcomeOf(o, i).report.marks.At(c)
         == if !Drawn(o, i, c) then NotEvaluated else if Holds(o, i, c) then Pass else Fail
  {
    ReportComplete(o, i);
    StopsExactly(o, i);
    if i.partition.Some? { BadIdsExactly(i.partition.value); }
    hide MarksOf, Codes, MetricIntegrity, Body, MarkOf, Holds, Drawn, BadIds, IdsHashable, ErrorOf, Recounted;
    MarkExactly(o, i, c);
  }

  /** And its other fields. */
  lemma ReportExactly(o: Oracles, i: Inputs)
    requires OutcomeOf(o, i).Returned?
    ensures var r := OutcomeOf(o, i).report;
      && r.policy == (if Holds(o, i, RetentionSchedule) then Pass else Fail)
      && r.definitionDigest == o.digest(i.definition) && r.snapshotDigest == o.digest(Body(o, i))
      && r.partitionDigest == (if Drawn(o, i, InputPartitionDigest)
                               then o.digest(CanonicalPartition(i.partition.value)) else None)
      && r.value == (if Drawn(o, i, InputPartitionDigest)
                     then ValueOf(Get(i.snapshot, "metric_id"), Get(i.partition.value, "observations").items) else None)
      && r.scheduleDigest == (if Holds(o, i, RetentionSchedule) then Some(o.schedulePin) else None)
      && Some(r.retention) == RetentionOf(o, i)
  {
    hide *;
    OwnFields(o, i);
    PartitionFields(o, i);
  }

  lemma OwnFields(o: Oracles, i: Inputs)
    requires OutcomeOf(o, i).Returned?
    ensures var r := OutcomeOf(o, i).report;
      && r.policy == (if Holds(o, i, RetentionSchedule) then Pass else Fail)
      && r.definitionDigest == o.digest(i.definition) && r.snapshotDigest == o.digest(Body(o, i))
      && r.scheduleDigest == (if Holds(o, i, RetentionSchedule) then Some(o.schedulePin) else None)
      && Some(r.retention) == RetentionOf(o, i)
  {
    StopsExactly(o, i);
    MarkExactly(o, i, RetentionSchedule);
    hide Body, CanonicalPartition, MarksOf, Codes, Usable, Countable, ValueOf, Recount, RetentionOf, MarkOf,
         MetricIntegrity, BadIds, IdsHashable, Distinct, Recounted, PartitionDigest;
  }

  lemma PartitionFields(o: Oracles, i: Inputs)
    requires OutcomeOf(o, i).Returned?
    ensures var r := OutcomeOf(o, i).report;
      && r.partitionDigest == (if Drawn(o, i, InputPartitionDigest)
                               then o.digest(CanonicalPartition(i.partition.value)) else None)
      && r.value == (if Drawn(o, i, InputPartitionDigest)
                     then ValueOf(Get(i.snapshot, "metric_id"), Get(i.partition.value, "observations").items) else None)
  {
    StopsExactly(o, i);
    if i.partition.Some? {
      BadIdsExactly(i.partition.value);
      UsableExactly(o, i.partition.value);
    }
    ValueReported(o, i);
    hide Body, CanonicalPartition, MarksOf, Codes, Usable, Countable, ValueOf, Recount, RetentionOf, MarkOf,
         MetricIntegrity, BadIds, IdsHashable, Distinct, Recounted, Holds;
  }

  lemma ValueReported(o: Oracles, i: Inputs)
    requires i.partition.Some? ==> IdsHashable(Observations(i.partition.value))
    ensures Recounted(o, i) == if i.partition.Some? && Usable(o, i.partition.value)
      then ValueOf(Get(i.snapshot, "metric_id"), Get(i.partition.value, "observations").items) else None
  {
    if i.partition.Some? {
      UsableExactly(o, i.partition.value);
      RecountExactly(Get(i.snapshot, "metric_id"), Observations(i.partition.value));
    }
    hide Usable, Countable, ValueOf, Recount, MetricOf, IdsHashable;
  }

  /** The metric axis passes exactly when all of its fifteen conclusions are drawn and hold, and fails
      exactly when one is drawn and does not. */
  lemma MetricExactly(o: Oracles, i: Inputs)
    requires OutcomeOf(o, i).Returned?
    ensures var r := OutcomeOf(o, i).report;
      && (r.metric == Pass <==> forall c :: c != RetentionSchedule ==> Drawn(o, i, c) && Holds(o, i, c))
      && (r.metric == Fail <==> exists c :: c != RetentionSchedule && Drawn(o, i, c) && !Holds(o, i, c))
  {
    forall c ensures OutcomeOf(o, i).report.marks.At(c)
                  == if !Drawn(o, i, c) then NotEvaluated else if Holds(o, i, c) then Pass else Fail {
      MarksExactly(o, i, c);
    }
    hide ErrorOf, Drawn, Holds, MarksOf, Codes, RetentionOf, Body, Recounted, PartitionDigest, MarkOf, Distinct;
    var m := MarksOf(o, i);
    assert OutcomeOf(o, i).report.metric == MetricIntegrity(m) && OutcomeOf(o, i).report.marks == m;
    forall c ensures m.At(c) == Pass <==> Drawn(o, i, c) && Holds(o, i, c) {}
    forall c ensures m.At(c) == Fail <==> Drawn(o, i, c) && !Holds(o, i, c) {}
    hide *;
    IntegrityExactly(m);
  }

  lemma IntegrityExactly(m: Marks)
    ensures MetricIntegrity(m) == Pass <==> forall c: Conclusion :: c != RetentionSchedule ==> m.At(c) == Pass
    ensures MetricIntegrity(m) == Fail <==> exists c: Conclusion :: c != RetentionSchedule && m.At(c) == Fail
  {
    if c: Conclusion :| c != RetentionSchedule && m.At(c) != Pass {
      assert m.At(c) == Fail || m.At(c) == NotEvaluated;
    }
  }

  /** Each code stands for a conclusion that is drawn and does not hold. */
  predicate Called(o: Oracles, i: Inputs, k: Code) {
    match k
    case RetentionScheduleInvalid => !o.validSchedule(i.schedule)
    case RetentionSchedulePinMismatch => o.validSchedule(i.schedule) && o.digest(i.schedule) != Some(o.schedulePin)
    case SnapshotShapeInvalid => !Holds(o, i, SnapshotShape)
    case UnsupportedMetricProfile => !Holds(o, i, MetricProfileBinding)
    case MetricIdentityMismatch => !Holds(o, i, MetricIdentity)
    case DerivationVersionMismatch => !Holds(o, i, DerivationVersion)
    case DefinitionDigestMismatch => !Holds(o, i, DefinitionDigest)
    case DefinitionPinMismatch => !Holds(o, i, DefinitionPin)
    case WindowMismatch => !Holds(o, i, WindowTimestamps) || (i.partition.Some? && !Holds(o, i, WindowBinding))
    case PartitionShapeInvalid => i.partition.Some? && !Holds(o, i, PartitionShape)
    case ObservationProfileInvalid => i.partition.Some? && !Holds(o, i, ObservationProfile)
    case DuplicateEventId => i.partition.Some? && !Holds(o, i, EventIdUniqueness)
    case PartitionDigestMismatch => Drawn(o, i, InputPartitionDigest) && !Holds(o, i, InputPartitionDigest)
    case ValueMismatch => Drawn(o, i, ValueRecomputation) && !Holds(o, i, ValueRecomputation)
    case SnapshotDigestMismatch => o.digest(Body(o, i)).Some? && !Holds(o, i, SnapshotDigest)
    case CanonicalizationFailed => o.digest(Body(o, i)).None?
    case PrivacyClassMismatch => !Holds(o, i, PrivacyClassBinding)
    case RetentionNonconforming => RetentionJudged(o, i) && i.status == Supplied && Past(o, i)
  }

  lemma CodesExactly(o: Oracles, i: Inputs, k: Code)
    requires OutcomeOf(o, i).Returned?
    ensures k in OutcomeOf(o, i).report.codes <==> Called(o, i, k)
  {
    StopsExactly(o, i);
    ReportComplete(o, i);
    if i.partition.Some? { BadIdsExactly(i.partition.value); }
    ReportedExactly(o, i, k);
    hide BadIds, Called, Reported, IdsHashable, MarksOf, MetricIntegrity, Codes, ErrorOf, Body, Recounted;
  }

  lemma ReportedExactly(o: Oracles, i: Inputs, k: Code)
    requires i.partition.Some? ==> IdsHashable(Observations(i.partition.value))
    ensures Reported(o, i, k) <==> Called(o, i, k)
  {
    hide MarkOf, Holds, Drawn, Body, RetentionOf, RetentionJudged, Past, IdsHashable;
    HoldsBody(o, i);
    DrawnWhen(o, i);
    match k
    case RetentionScheduleInvalid =>
    case RetentionSchedulePinMismatch =>
    case SnapshotShapeInvalid => MarkExactly(o, i, SnapshotShape);
    case UnsupportedMetricProfile => MarkExactly(o, i, MetricProfileBinding);
    case MetricIdentityMismatch => MarkExactly(o, i, MetricIdentity);
    case DerivationVersionMismatch => MarkExactly(o, i, DerivationVersion);
    case DefinitionDigestMismatch => MarkExactly(o, i, DefinitionDigest);
    case DefinitionPinMismatch => MarkExactly(o, i, DefinitionPin);
    case WindowMismatch =>
      MarkExactly(o, i, WindowTimestamps);
      MarkExactly(o, i, WindowBinding);
    case PartitionShapeInvalid => MarkExactly(o, i, PartitionShape);
    case ObservationProfileInvalid => MarkExactly(o, i, ObservationProfile);
    case DuplicateEventId => MarkExactly(o, i, EventIdUniqueness);
    case PartitionDigestMismatch => MarkExactly(o, i, InputPartitionDigest);
    case ValueMismatch => MarkExactly(o, i, ValueRecomputation);
    case SnapshotDigestMismatch => MarkExactly(o, i, SnapshotDigest);
    case CanonicalizationFailed =>
    case PrivacyClassMismatch => MarkExactly(o, i, PrivacyClassBinding);
    case RetentionNonconforming => RetentionExactly(o, i);
  }

  lemma DrawnWhen(o: Oracles, i: Inputs)
    ensures Drawn(o, i, SnapshotShape) && Drawn(o, i, MetricProfileBinding) && Drawn(o, i, MetricIdentity)
    ensures Drawn(o, i, DerivationVersion) && Drawn(o, i, DefinitionDigest) && Drawn(o, i, DefinitionPin)
    ensures Drawn(o, i, WindowTimestamps) && Drawn(o, i, SnapshotDigest) && Drawn(o, i, PrivacyClassBinding)
    ensures Drawn(o, i, PartitionShape) == Drawn(o, i, ObservationProfile) == i.partition.Some?
    ensures Drawn(o, i, EventIdUniqueness) == Drawn(o, i, WindowBinding) == i.partition.Some?
  {}

  lemma HoldsBody(o: Oracles, i: Inputs)
    ensures o.digest(Body(o, i)).None? ==> !Holds(o, i, SnapshotDigest)
    ensures Holds(o, i, RetentionSchedule) <==> SchedulePinned(o, i)
  {
    hide Body;
  }
}
