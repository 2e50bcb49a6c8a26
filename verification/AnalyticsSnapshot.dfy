/** `analytics_snapshot.py`: recounting a metric from a partition of observations, and the
    verification report. JSON Schema validation, the RFC 8785 digest, date parsing and the pinned
    constants are parameters. */
module AnalyticsSnapshot {
  import opened JsonValue
  import opened Sorting

  // ----- counting -----

  function Keep<T(!new)>(xs: seq<T>, p: T -> bool): (r: seq<T>)
    ensures |r| <= |xs|
    ensures forall x :: x in r <==> x in xs && p(x)
  {
    if xs == [] then [] else (if p(xs[0]) then [xs[0]] else []) + Keep(xs[1..], p)
  }

  function Distinct<T>(xs: seq<T>): set<T> { set x | x in xs }

  function Keys<T, K>(xs: seq<T>, key: T -> K): (r: seq<K>)
    ensures |r| == |xs| && forall i :: 0 <= i < |xs| ==> r[i] == key(xs[i])
  {
    if xs == [] then [] else [key(xs[0])] + Keys(xs[1..], key)
  }

  lemma {:induction false} KeepCount<T(!new)>(xs: seq<T>, p: T -> bool, x: T)
    ensures multiset(Keep(xs, p))[x] == if p(x) then multiset(xs)[x] else 0
  {
    if xs != [] {
      KeepCount(xs[1..], p, x);
      assert xs == [xs[0]] + xs[1..];
    }
  }

  lemma {:induction false} KeepSplits<T(!new)>(xs: seq<T>, p: T -> bool, q: T -> bool)
    requires forall x :: x in xs ==> (q(x) <==> !p(x))
    ensures |Keep(xs, p)| + |Keep(xs, q)| == |xs|
  {
    if xs != [] { KeepSplits(xs[1..], p, q); }
  }

  /** Counting and the set of keys do not see the order. */
  lemma KeepOrderFree<T(!new), K(!new)>(xs: seq<T>, ys: seq<T>, p: T -> bool, key: T -> K)
    requires multiset(xs) == multiset(ys)
    ensures multiset(Keep(xs, p)) == multiset(Keep(ys, p))
    ensures |Keep(xs, p)| == |Keep(ys, p)|
    ensures Distinct(Keys(Keep(xs, p), key)) == Distinct(Keys(Keep(ys, p), key))
  {
    var a, b := Keep(xs, p), Keep(ys, p);
    forall x ensures multiset(a)[x] == multiset(b)[x] {
      KeepCount(xs, p, x);
      KeepCount(ys, p, x);
    }
    assert multiset(a) == multiset(b);
    assert |a| == |multiset(a)| == |multiset(b)| == |b|;
    SameKeys(a, b, key);
    SameKeys(b, a, key);
  }

  lemma SameKeys<T(!new), K(!new)>(a: seq<T>, b: seq<T>, key: T -> K)
    requires multiset(a) == multiset(b)
    ensures Distinct(Keys(a, key)) <= Distinct(Keys(b, key))
  {
    forall k | k in Keys(a, key) ensures k in Keys(b, key) {
      var i :| 0 <= i < |a| && Keys(a, key)[i] == k;
      assert a[i] in multiset(b);
      var j :| 0 <= j < |b| && b[j] == a[i];
      assert Keys(b, key)[j] == k;
    }
  }

  /** `len(set(xs)) == len(xs)` says that nothing repeats; it never exceeds. */
  lemma {:induction false} DistinctCount<T(!new)>(xs: seq<T>)
    ensures |Distinct(xs)| <= |xs|
    ensures |Distinct(xs)| == |xs| <==> NoRepeats(xs)
  {
    if xs == [] {
      assert Distinct(xs) == {};
    } else {
      var t := xs[1..];
      DistinctCount(t);
      assert xs == [xs[0]] + t;
      assert Distinct(xs) == {xs[0]} + Distinct(t);
      assert forall i :: 0 <= i < |t| ==> t[i] == xs[i + 1];
      if xs[0] in t {
        assert Distinct(xs) == Distinct(t);
        var i :| 0 <= i < |t| && t[i] == xs[0];
        assert xs[0] == xs[i + 1];
      } else if NoRepeats(t) {
        forall i, j | 0 <= i < j < |xs| ensures xs[i] != xs[j] {
          if i == 0 { assert xs[j] == t[j - 1]; } else { assert xs[i] == t[i - 1] && xs[j] == t[j - 1]; }
        }
      } else {
        var i, j :| 0 <= i < j < |t| && t[i] == t[j];
        assert xs[i + 1] == xs[j + 1];
      }
    }
  }

  // ----- recount -----

  datatype Metric = HttpRequests | PageRenders | PageViews | ApiObjectReads | McpResourceReads

  /** The five supported metric ids. */
  function MetricOf(id: Json): Option<Metric> {
    if id == Str("http_request_count") then Some(HttpRequests)
    else if id == Str("page_render_count") then Some(PageRenders)
    else if id == Str("page_view_count") then Some(PageViews)
    else if id == Str("api_object_read_count") then Some(ApiObjectReads)
    else if id == Str("mcp_resource_read_count") then Some(McpResourceReads)
    else None
  }

  predicate Counted(o: Json, action: string, transport: string) {
    Get(o, "action") == Str(action) && Get(o, "transport") == Str(transport)
  }

  predicate IsRender(o: Json) { Counted(o, "page_render", "web") }

  predicate HasSession(o: Json) { Get(o, "session_ref") != Null }

  function ViewKey(o: Json): (Json, Json) { (Get(o, "session_ref"), Get(o, "object_ref")) }

  /** `recount`: a page view is a page render with no session, or a session and object that occur
      together in some render. */
  function Recount(metric: Metric, obs: seq<Json>): nat {
    match metric
    case HttpRequests => |Keep(obs, o => Counted(o, "http_request", "web"))|
    case PageRenders => |Keep(obs, IsRender)|
    case ApiObjectReads => |Keep(obs, o => Counted(o, "api_object_read", "api"))|
    case McpResourceReads => |Keep(obs, o => Counted(o, "mcp_resource_read", "mcp"))|
    case PageViews =>
      var renders := Keep(obs, IsRender);
      |Distinct(Keys(Keep(renders, HasSession), ViewKey))| + |Keep(renders, o => !HasSession(o))|
  }

  lemma RecountOrderFree(metric: Metric, xs: seq<Json>, ys: seq<Json>)
    requires multiset(xs) == multiset(ys)
    ensures Recount(metric, xs) == Recount(metric, ys)
  {
    hide Keep, Keys, Distinct, Counted, HasSession, ViewKey;
    match metric
    case HttpRequests => KeepOrderFree(xs, ys, o => Counted(o, "http_request", "web"), ViewKey);
    case PageRenders => KeepOrderFree(xs, ys, IsRender, ViewKey);
    case ApiObjectReads => KeepOrderFree(xs, ys, o => Counted(o, "api_object_read", "api"), ViewKey);
    case McpResourceReads => KeepOrderFree(xs, ys, o => Counted(o, "mcp_resource_read", "mcp"), ViewKey);
    case PageViews =>
      KeepOrderFree(xs, ys, IsRender, ViewKey);
      KeepOrderFree(Keep(xs, IsRender), Keep(ys, IsRender), HasSession, ViewKey);
      KeepOrderFree(Keep(xs, IsRender), Keep(ys, IsRender), o => !HasSession(o), ViewKey);
  }

  /** Page views never exceed page renders, and equal them exactly when no session sees one object
      twice. */
  lemma PageViewsWithinRenders(obs: seq<Json>)
    ensures Recount(PageViews, obs) <= Recount(PageRenders, obs)
    ensures Recount(PageViews, obs) == Recount(PageRenders, obs)
       <==> NoRepeats(Keys(Keep(Keep(obs, IsRender), HasSession), ViewKey))
  {
    var renders := Keep(obs, IsRender);
    KeepSplits(renders, HasSession, o => !HasSession(o));
    DistinctCount(Keys(Keep(renders, HasSession), ViewKey));
  }

  // ----- the report -----

  datatype Mark = Pass | Fail | NotEvaluated

  datatype Conclusion =
    | RetentionSchedule | SnapshotShape | MetricProfileBinding | MetricIdentity | DerivationVersion
    | DefinitionDigest | DefinitionPin | WindowTimestamps | PartitionShape | ObservationProfile
    | EventIdUniqueness | WindowBinding | InputPartitionDigest | ValueRecomputation | SnapshotDigest
    | PrivacyClassBinding

  /** `concl`: one entry per conclusion. */
  datatype Marks = Marks(
    retentionSchedule: Mark, snapshotShape: Mark, metricProfileBinding: Mark, metricIdentity: Mark,
    derivationVersion: Mark, definitionDigest: Mark, definitionPin: Mark, windowTimestamps: Mark,
    partitionShape: Mark, observationProfile: Mark, eventIdUniqueness: Mark, windowBinding: Mark,
    inputPartitionDigest: Mark, valueRecomputation: Mark, snapshotDigest: Mark, privacyClassBinding: Mark)
  {
    function At(c: Conclusion): Mark {
      match c
      case RetentionSchedule => retentionSchedule
      case SnapshotShape => snapshotShape
      case MetricProfileBinding => metricProfileBinding
      case MetricIdentity => metricIdentity
      case DerivationVersion => derivationVersion
      case DefinitionDigest => definitionDigest
      case DefinitionPin => definitionPin
      case WindowTimestamps => windowTimestamps
      case PartitionShape => partitionShape
      case ObservationProfile => observationProfile
      case EventIdUniqueness => eventIdUniqueness
      case WindowBinding => windowBinding
      case InputPartitionDigest => inputPartitionDigest
      case ValueRecomputation => valueRecomputation
      case SnapshotDigest => snapshotDigest
      case PrivacyClassBinding => privacyClassBinding
    }
  }

  datatype Code =
    | RetentionScheduleInvalid | RetentionSchedulePinMismatch | SnapshotShapeInvalid
    | UnsupportedMetricProfile | MetricIdentityMismatch | DerivationVersionMismatch
    | DefinitionDigestMismatch | DefinitionPinMismatch | WindowMismatch | PartitionShapeInvalid
    | ObservationProfileInvalid | DuplicateEventId | PartitionDigestMismatch | ValueMismatch
    | SnapshotDigestMismatch | CanonicalizationFailed | PrivacyClassMismatch | RetentionNonconforming

  datatype SourceStatus = Supplied | AbsentExpired | AbsentWithdrawn | AbsentUnexplained | NotSupplied

  datatype Recomputability =
    FullRecomputation | SourceExpired | SourceWithdrawn | SourceUnavailable | RecomputabilityNotEvaluated

  datatype Conformance = Conforming | Nonconforming | ConformanceNotEvaluated

  datatype Retention = Retention(state: Recomputability, conformance: Conformance)

  datatype Error = Usage | Uncanonical | Unhashable | Contradiction

  datatype Outcome = Raised(error: Error) | Returned(report: Report)

  datatype Report = Report(
    marks: Marks, metric: Mark, policy: Mark,
    definitionDigest: Option<string>, partitionDigest: Option<string>, value: Option<nat>,
    snapshotDigest: Option<string>, retention: Retention, scheduleDigest: Option<string>,
    codes: set<Code>)

  /** What lies outside this model: the schema validators, the RFC 8785 digest (None where
      canonicalisation is refused), the pins, and dates. */
  datatype Oracles = Oracles(
    validSchedule: Json -> bool, validSnapshot: Json -> bool, validObservation: Json -> bool,
    digest: Json -> Option<string>, schedulePin: string, definitionPin: Metric -> string,
    derivationVersion: string, artifactTime: Json -> bool, callerTime: string -> bool,
    pastDeadline: (Json, Json, string) -> bool)

  datatype Inputs = Inputs(
    snapshot: Json, definition: Json, partition: Option<Json>, schedule: Json,
    status: SourceStatus, asOf: string)

  /** Python's `==` counts True as 1 and False as 0. */
  function AsNumber(j: Json): Json { if j.Bool? then Int(if j.b then 1 else 0) else j }

  predicate Same(a: Json, b: Json) { Abs(AsNumber(a)) == Abs(AsNumber(b)) }

  // ----- the partition -----

  predicate PartitionShaped(p: Json) {
    p.Obj? && Get(p, "observations").Arr? && HasKey(p.members, "window_start") && HasKey(p.members, "window_end")
  }

  function Observations(p: Json): seq<Json> {
    if PartitionShaped(p) then Get(p, "observations").items else []
  }

  predicate ProfileOk(o: Oracles, p: Json) {
    PartitionShaped(p) && forall x :: x in Observations(p) ==> x.Obj? && o.validObservation(x)
  }

  predicate IsObject(j: Json) { j.Obj? }

  function EventId(o: Json): Json { AsNumber(Get(o, "event_id")) }

  function Ids(obs: seq<Json>): seq<Json> { Keys(Keep(obs, IsObject), EventId) }

  predicate IdsHashable(obs: seq<Json>) { forall k :: k in Distinct(Ids(obs)) ==> !k.Arr? && !k.Obj? }

  predicate UniqueIds(p: Json) {
    var obs := Observations(p);
    PartitionShaped(p) && |Ids(obs)| == |Distinct(Ids(obs))| && |Ids(obs)| == |obs|
  }

  predicate WindowBound(p: Json, snapshot: Json) {
    && PartitionShaped(p) && Same(Get(p, "window_start"), Get(snapshot, "window_start"))
    && Same(Get(p, "window_end"), Get(snapshot, "window_end"))
  }

  predicate Countable(o: Oracles, p: Json) { ProfileOk(o, p) && UniqueIds(p) }

  function IdText(o: Json): string { var id := Get(o, "event_id"); if id.Str? then id.s else "" }

  predicate ById(x: Json, y: Json) { StrLe(IdText(x), IdText(y)) }

  /** What is digested: the observations in the order of their ids. */
  function CanonicalPartition(p: Json): Json {
    Obj([Member("observations", Arr(Sort(Observations(p), ById))),
         Member("window_end", Get(p, "window_end")), Member("window_start", Get(p, "window_start"))])
  }

  // ----- what each conclusion says -----

  function MarkIf(ok: bool): Mark { if ok then Pass else Fail }

  function Supported(i: Inputs): Option<Metric> { MetricOf(Get(i.snapshot, "metric_id")) }

  predicate CountableInput(o: Oracles, i: Inputs) { i.partition.Some? && Countable(o, i.partition.value) }

  function PartitionDigest(o: Oracles, i: Inputs): Option<string> {
    if CountableInput(o, i) then o.digest(CanonicalPartition(i.partition.value)) else None
  }

  function Recounted(o: Oracles, i: Inputs): Option<nat> {
    if CountableInput(o, i) && Supported(i).Some?
    then Some(Recount(Supported(i).value, Observations(i.partition.value))) else None
  }

  predicate WindowTimesOk(o: Oracles, i: Inputs) {
    o.artifactTime(Get(i.snapshot, "window_start")) && o.artifactTime(Get(i.snapshot, "window_end"))
  }

  predicate SchedulePinned(o: Oracles, i: Inputs) {
    o.validSchedule(i.schedule) && o.digest(i.schedule) == Some(o.schedulePin)
  }

  /** The snapshot body that is digested: the recomputed partition digest stands in for the claimed
      one whenever there is one. */
  function Body(o: Oracles, i: Inputs): Json {
    var s, d := i.snapshot, PartitionDigest(o, i);
    Obj([Member("derivation_version", Get(s, "derivation_version")),
         Member("input_partition_digest",
                if d.Some? && d.value != "" then Str(d.value) else Get(s, "input_partition_digest")),
         Member("metric_definition_digest", Get(s, "metric_definition_digest")),
         Member("metric_id", Get(s, "metric_id")), Member("metric_version", Get(s, "metric_version")),
         Member("value", Get(s, "value")), Member("window_end", Get(s, "window_end")),
         Member("window_start", Get(s, "window_start"))])
  }

  predicate ProfileBound(i: Inputs) { Supported(i).Some? && Get(i.snapshot, "metric_version") == Str("0.1") }

  predicate Identified(i: Inputs) {
    && Same(Get(i.definition, "metric_id"), Get(i.snapshot, "metric_id"))
    && Same(Get(i.definition, "version"), Get(i.snapshot, "metric_version"))
  }

  predicate DerivationPinned(o: Oracles, i: Inputs) {
    && Get(i.snapshot, "derivation_version") == Str(o.derivationVersion)
    && Get(i.definition, "derivation_version") == Str(o.derivationVersion)
  }

  /** A digest equals the one the snapshot claims under `field`. */
  predicate Claimed(i: Inputs, field: string, d: Option<string>) {
    d.Some? && Get(i.snapshot, field) == Str(d.value)
  }

  predicate DefinitionPinned(o: Oracles, i: Inputs) {
    Supported(i).Some? && o.digest(i.definition) == Some(o.definitionPin(Supported(i).value))
  }

  predicate ValueClaimed(i: Inputs, n: nat) { AsNumber(Get(i.snapshot, "value")) == Int(n) }

  predicate Anonymous(i: Inputs) { Get(i.snapshot, "privacy_class") == Str("ANONYMOUS_AGGREGATE") }

  function MarkOf(o: Oracles, i: Inputs, c: Conclusion): Mark {
    match c
    case RetentionSchedule => MarkIf(SchedulePinned(o, i))
    case SnapshotShape => MarkIf(o.validSnapshot(i.snapshot))
    case MetricProfileBinding => MarkIf(ProfileBound(i))
    case MetricIdentity => MarkIf(Identified(i))
    case DerivationVersion => MarkIf(DerivationPinned(o, i))
    case DefinitionDigest => MarkIf(Claimed(i, "metric_definition_digest", o.digest(i.definition)))
    case DefinitionPin => MarkIf(DefinitionPinned(o, i))
    case WindowTimestamps => MarkIf(WindowTimesOk(o, i))
    case PrivacyClassBinding => MarkIf(Anonymous(i))
    case SnapshotDigest => MarkIf(Claimed(i, "snapshot_digest", o.digest(Body(o, i))))
    case _ =>
      match i.partition
      case None => NotEvaluated
      case Some(p) => PartitionMark(o, i, p, c)
  }

  function PartitionMark(o: Oracles, i: Inputs, p: Json, c: Conclusion): Mark {
    match c
    case PartitionShape => MarkIf(PartitionShaped(p))
    case ObservationProfile => MarkIf(ProfileOk(o, p))
    case EventIdUniqueness => MarkIf(UniqueIds(p))
    case WindowBinding => MarkIf(WindowBound(p, i.snapshot))
    case InputPartitionDigest =>
      if !Countable(o, p) then NotEvaluated
      else MarkIf(Claimed(i, "input_partition_digest", PartitionDigest(o, i)))
    case _ =>
      match Recounted(o, i)
      case None => NotEvaluated
      case Some(n) => MarkIf(ValueClaimed(i, n))
  }

  /** When each failure code is reported. */
  predicate Reported(o: Oracles, i: Inputs, k: Code) {
    match k
    case RetentionScheduleInvalid => !o.validSchedule(i.schedule)
    case RetentionSchedulePinMismatch => o.validSchedule(i.schedule) && !SchedulePinned(o, i)
    case SnapshotShapeInvalid => MarkOf(o, i, SnapshotShape) == Fail
    case UnsupportedMetricProfile => MarkOf(o, i, MetricProfileBinding) == Fail
    case MetricIdentityMismatch => MarkOf(o, i, MetricIdentity) == Fail
    case DerivationVersionMismatch => MarkOf(o, i, DerivationVersion) == Fail
    case DefinitionDigestMismatch => MarkOf(o, i, DefinitionDigest) == Fail
    case DefinitionPinMismatch => MarkOf(o, i, DefinitionPin) == Fail
    case WindowMismatch => MarkOf(o, i, WindowTimestamps) == Fail || MarkOf(o, i, WindowBinding) == Fail
    case PartitionShapeInvalid => MarkOf(o, i, PartitionShape) == Fail
    case ObservationProfileInvalid => MarkOf(o, i, ObservationProfile) == Fail
    case DuplicateEventId => MarkOf(o, i, EventIdUniqueness) == Fail
    case PartitionDigestMismatch => MarkOf(o, i, InputPartitionDigest) == Fail
    case ValueMismatch => MarkOf(o, i, ValueRecomputation) == Fail
    case SnapshotDigestMismatch => MarkOf(o, i, SnapshotDigest) == Fail && o.digest(Body(o, i)).Some?
    case CanonicalizationFailed => o.digest(Body(o, i)).None?
    case PrivacyClassMismatch => MarkOf(o, i, PrivacyClassBinding) == Fail
    case RetentionNonconforming =>
      var r := RetentionOf(o, i);
      r.Some? && r.value.conformance == Nonconforming
  }

  /** `_evaluate_retention`, where it is reached; None is the contradiction it raises. */
  function RetentionOf(o: Oracles, i: Inputs): Option<Retention> {
    if !SchedulePinned(o, i) || !WindowTimesOk(o, i)
    then Some(Retention(RecomputabilityNotEvaluated, ConformanceNotEvaluated))
    else
      var past := o.pastDeadline(i.schedule, Get(i.snapshot, "window_end"), i.asOf);
      match i.status
      case Supplied => Some(Retention(FullRecomputation, if past then Nonconforming else Conforming))
      case NotSupplied => Some(Retention(RecomputabilityNotEvaluated, ConformanceNotEvaluated))
      case AbsentExpired => if past then Some(Retention(SourceExpired, Conforming)) else None
      case AbsentWithdrawn => Some(Retention(SourceWithdrawn, Conforming))
      case AbsentUnexplained => Some(Retention(SourceUnavailable, ConformanceNotEvaluated))
  }

  /** What stops the run, the earliest first. */
  function ErrorOf(o: Oracles, i: Inputs): Option<Error> {
    if (i.status == Supplied) != i.partition.Some? || !o.callerTime(i.asOf) then Some(Usage)
    else if o.validSchedule(i.schedule) && o.digest(i.schedule).None? then Some(Uncanonical)
    else if Get(i.snapshot, "metric_id").Arr? || Get(i.snapshot, "metric_id").Obj? then Some(Unhashable)
    else if o.digest(i.definition).None? then Some(Uncanonical)
    else if i.partition.Some? && !IdsHashable(Observations(i.partition.value)) then Some(Unhashable)
    else if CountableInput(o, i) && PartitionDigest(o, i).None? then Some(Uncanonical)
    else if RetentionOf(o, i).None? then Some(Contradiction)
    else None
  }

  /** The metric axis leaves the retention schedule out. */
  function MetricIntegrity(m: Marks): Mark {
    if exists c: Conclusion :: c != RetentionSchedule && m.At(c) == Fail then Fail
    else if exists c: Conclusion :: c != RetentionSchedule && m.At(c) == NotEvaluated then NotEvaluated
    else Pass
  }

  // The conclusions, and the findings in the order in which they are recorded.

  function OnFail(mark: Mark, k: Code): seq<Code> { if mark == Fail then [k] else [] }

  /** After the checks that need no partition; the rest is not evaluated yet. */
  function EarlyMarks(o: Oracles, i: Inputs): Marks {
    Marks(
      MarkOf(o, i, RetentionSchedule), MarkOf(o, i, SnapshotShape), MarkOf(o, i, MetricProfileBinding),
      MarkOf(o, i, MetricIdentity), MarkOf(o, i, DerivationVersion), MarkOf(o, i, DefinitionDigest),
      MarkOf(o, i, DefinitionPin), MarkOf(o, i, WindowTimestamps),
      NotEvaluated, NotEvaluated, NotEvaluated, NotEvaluated, NotEvaluated, NotEvaluated, NotEvaluated, NotEvaluated)
  }

  function WithPartitionMarks(o: Oracles, i: Inputs, m: Marks): Marks {
    m.(partitionShape := MarkOf(o, i, PartitionShape),
       observationProfile := MarkOf(o, i, ObservationProfile),
       eventIdUniqueness := MarkOf(o, i, EventIdUniqueness),
       windowBinding := MarkOf(o, i, WindowBinding),
       inputPartitionDigest := MarkOf(o, i, InputPartitionDigest),
       valueRecomputation := MarkOf(o, i, ValueRecomputation))
  }

  function MarksOf(o: Oracles, i: Inputs): Marks {
    WithPartitionMarks(o, i, EarlyMarks(o, i)).(
      snapshotDigest := MarkOf(o, i, SnapshotDigest), privacyClassBinding := MarkOf(o, i, PrivacyClassBinding))
  }

  function EarlyCodes(validSchedule: bool, m: Marks): seq<Code> {
    (if !validSchedule then [RetentionScheduleInvalid] else OnFail(m.retentionSchedule, RetentionSchedulePinMismatch))
    + OnFail(m.snapshotShape, SnapshotShapeInvalid)
    + OnFail(m.metricProfileBinding, UnsupportedMetricProfile)
    + OnFail(m.metricIdentity, MetricIdentityMismatch)
    + OnFail(m.derivationVersion, DerivationVersionMismatch)
    + OnFail(m.definitionDigest, DefinitionDigestMismatch)
    + OnFail(m.definitionPin, DefinitionPinMismatch)
    + OnFail(m.windowTimestamps, WindowMismatch)
  }

  function WithPartitionCodes(m: Marks, codes: seq<Code>): seq<Code> {
    codes
    + OnFail(m.partitionShape, PartitionShapeInvalid)
    + OnFail(m.observationProfile, ObservationProfileInvalid)
    + OnFail(m.eventIdUniqueness, DuplicateEventId)
    + OnFail(m.windowBinding, WindowMismatch)
    + OnFail(m.inputPartitionDigest, PartitionDigestMismatch)
    + OnFail(m.valueRecomputation, ValueMismatch)
  }

  function LateCodes(bodyDigested: bool, m: Marks, retention: Option<Retention>): seq<Code> {
    (if !bodyDigested then [CanonicalizationFailed] else OnFail(m.snapshotDigest, SnapshotDigestMismatch))
    + OnFail(m.privacyClassBinding, PrivacyClassMismatch)
    + (if retention.Some? && retention.value.conformance == Nonconforming then [RetentionNonconforming] else [])
  }

  function Codes(o: Oracles, i: Inputs): seq<Code> {
    var early := EarlyMarks(o, i);
    WithPartitionCodes(WithPartitionMarks(o, i, early), EarlyCodes(o.validSchedule(i.schedule), early))
    + LateCodes(o.digest(Body(o, i)).Some?, MarksOf(o, i), RetentionOf(o, i))
  }

  /** The outcome of a run, field by field. */
  function OutcomeOf(o: Oracles, i: Inputs): Outcome {
    match ErrorOf(o, i)
    case Some(e) => Raised(e)
    case None =>
      Returned(Report(
        MarksOf(o, i), MetricIntegrity(MarksOf(o, i)), MarkOf(o, i, RetentionSchedule),
        o.digest(i.definition), PartitionDigest(o, i), Recounted(o, i), o.digest(Body(o, i)),
        RetentionOf(o, i).Extract(), if SchedulePinned(o, i) then o.digest(i.schedule) else None,
        Distinct(Codes(o, i))))
  }

  /** Every conclusion is drawn, and every code is reported exactly when its condition holds. */
  lemma ReportComplete(o: Oracles, i: Inputs)
    ensures forall c :: MarksOf(o, i).At(c) == MarkOf(o, i, c)
    ensures forall k :: k in Codes(o, i) <==> Reported(o, i, k)
  {
    hide MarkOf, Codes, Reported, MarksOf;
    forall c ensures MarksOf(o, i).At(c) == MarkOf(o, i, c) { MarkDrawn(o, i, c); }
    forall k ensures k in Codes(o, i) <==> Reported(o, i, k) { CodeReported(o, i, k); }
  }

  lemma MarkDrawn(o: Oracles, i: Inputs, c: Conclusion)
    ensures MarksOf(o, i).At(c) == MarkOf(o, i, c)
  {
    hide MarkOf;
  }

  lemma CodeReported(o: Oracles, i: Inputs, k: Code)
    ensures k in Codes(o, i) <==> Reported(o, i, k)
  {
    SpecialMarks(o, i);
    var early := EarlyMarks(o, i);
    EarlyMember(o.validSchedule(i.schedule), early, k);
    PartitionMember(WithPartitionMarks(o, i, early), EarlyCodes(o.validSchedule(i.schedule), early), k);
    hide MarkOf, RetentionOf, Body, SchedulePinned, EarlyCodes, WithPartitionCodes, RetentionOf;
  }

  lemma EarlyMember(valid: bool, m: Marks, k: Code)
    ensures k in EarlyCodes(valid, m) <==>
      match k
      case RetentionScheduleInvalid => !valid
      case RetentionSchedulePinMismatch => valid && m.retentionSchedule == Fail
      case SnapshotShapeInvalid => m.snapshotShape == Fail
      case UnsupportedMetricProfile => m.metricProfileBinding == Fail
      case MetricIdentityMismatch => m.metricIdentity == Fail
      case DerivationVersionMismatch => m.derivationVersion == Fail
      case DefinitionDigestMismatch => m.definitionDigest == Fail
      case DefinitionPinMismatch => m.definitionPin == Fail
      case WindowMismatch => m.windowTimestamps == Fail
      case _ => false
  {
    var first := if !valid then [RetentionScheduleInvalid] else OnFail(m.retentionSchedule, RetentionSchedulePinMismatch);
    var c1 := first + OnFail(m.snapshotShape, SnapshotShapeInvalid);
    var c2 := c1 + OnFail(m.metricProfileBinding, UnsupportedMetricProfile);
    var c3 := c2 + OnFail(m.metricIdentity, MetricIdentityMismatch);
    var c4 := c3 + OnFail(m.derivationVersion, DerivationVersionMismatch);
    var c5 := c4 + OnFail(m.definitionDigest, DefinitionDigestMismatch);
    var c6 := c5 + OnFail(m.definitionPin, DefinitionPinMismatch);
    FirstMember(valid, m, k);
    hide OnFail;
    OnFailMember(first, m.snapshotShape, SnapshotShapeInvalid, k);
    OnFailMember(c1, m.metricProfileBinding, UnsupportedMetricProfile, k);
    OnFailMember(c2, m.metricIdentity, MetricIdentityMismatch, k);
    OnFailMember(c3, m.derivationVersion, DerivationVersionMismatch, k);
    OnFailMember(c4, m.definitionDigest, DefinitionDigestMismatch, k);
    OnFailMember(c5, m.definitionPin, DefinitionPinMismatch, k);
    OnFailMember(c6, m.windowTimestamps, WindowMismatch, k);
  }

  lemma FirstMember(valid: bool, m: Marks, k: Code)
    ensures k in (if !valid then [RetentionScheduleInvalid] else OnFail(m.retentionSchedule, RetentionSchedulePinMismatch))
       <==> if !valid then k == RetentionScheduleInvalid
            else m.retentionSchedule == Fail && k == RetentionSchedulePinMismatch
  {}

  lemma OnFailMember(codes: seq<Code>, mark: Mark, reported: Code, k: Code)
    ensures k in codes + OnFail(mark, reported) <==> k in codes || (mark == Fail && k == reported)
  {}

  lemma PartitionMember(m: Marks, codes: seq<Code>, k: Code)
    ensures k in WithPartitionCodes(m, codes) <==> k in codes || PartitionReport(m, k)
  {
    hide OnFail;
    var c1 := codes + OnFail(m.partitionShape, PartitionShapeInvalid);
    var c2 := c1 + OnFail(m.observationProfile, ObservationProfileInvalid);
    var c3 := c2 + OnFail(m.eventIdUniqueness, DuplicateEventId);
    var c4 := c3 + OnFail(m.windowBinding, WindowMismatch);
    var c5 := c4 + OnFail(m.inputPartitionDigest, PartitionDigestMismatch);
    OnFailMember(codes, m.partitionShape, PartitionShapeInvalid, k);
    OnFailMember(c1, m.observationProfile, ObservationProfileInvalid, k);
    OnFailMember(c2, m.eventIdUniqueness, DuplicateEventId, k);
    OnFailMember(c3, m.windowBinding, WindowMismatch, k);
    OnFailMember(c4, m.inputPartitionDigest, PartitionDigestMismatch, k);
    OnFailMember(c5, m.valueRecomputation, ValueMismatch, k);
  }

  predicate PartitionReport(m: Marks, k: Code) {
    match k
    case PartitionShapeInvalid => m.partitionShape == Fail
    case ObservationProfileInvalid => m.observationProfile == Fail
    case DuplicateEventId => m.eventIdUniqueness == Fail
    case WindowMismatch => m.windowBinding == Fail
    case PartitionDigestMismatch => m.inputPartitionDigest == Fail
    case ValueMismatch => m.valueRecomputation == Fail
    case _ => false
  }

  lemma SpecialMarks(o: Oracles, i: Inputs)
    ensures o.digest(Body(o, i)).None? ==> MarkOf(o, i, SnapshotDigest) == Fail
    ensures MarkOf(o, i, RetentionSchedule) == Fail <==> !SchedulePinned(o, i)
  {
    hide Body;
  }

  // ----- the verifier -----

  /** The part of a run that looks at the partition. */
  datatype Judgement =
    | Failed(error: Error)
    | Judged(marks: Marks, codes: seq<Code>, digest: Option<string>, value: Option<nat>)

  function JudgementOf(o: Oracles, i: Inputs, marks: Marks, codes: seq<Code>): Judgement {
    if i.partition.Some? && !IdsHashable(Observations(i.partition.value)) then Failed(Unhashable)
    else if CountableInput(o, i) && PartitionDigest(o, i).None? then Failed(Uncanonical)
    else
      var m := WithPartitionMarks(o, i, marks);
      Judged(m, WithPartitionCodes(m, codes), PartitionDigest(o, i), Recounted(o, i))
  }

  method JudgePartition(o: Oracles, i: Inputs, marks: Marks, codes: seq<Code>)
    returns (r: Judgement)
    ensures r == JudgementOf(o, i, marks, codes)
  {
    hide PartitionShaped, ProfileOk, UniqueIds, WindowBound, IdsHashable, Observations, CountableInput,
         PartitionDigest, Recounted, Claimed, ValueClaimed;
    PartitionMarksAre(o, i);
    hide MarkOf;
    var m, k := marks, codes;
    if i.partition.None? {
      m := m.(partitionShape := NotEvaluated, observationProfile := NotEvaluated,
              eventIdUniqueness := NotEvaluated, windowBinding := NotEvaluated,
              inputPartitionDigest := NotEvaluated, valueRecomputation := NotEvaluated);
      return Judged(m, k, None, None);
    }
    var p := i.partition.value;
    var mark := MarkIf(PartitionShaped(p));
    m, k := m.(partitionShape := mark), k + OnFail(mark, PartitionShapeInvalid);
    mark := MarkIf(ProfileOk(o, p));
    m, k := m.(observationProfile := mark), k + OnFail(mark, ObservationProfileInvalid);
    if !IdsHashable(Observations(p)) { return Failed(Unhashable); }
    mark := MarkIf(UniqueIds(p));
    m, k := m.(eventIdUniqueness := mark), k + OnFail(mark, DuplicateEventId);
    mark := MarkIf(WindowBound(p, i.snapshot));
    m, k := m.(windowBinding := mark), k + OnFail(mark, WindowMismatch);
    var input := JudgeInput(o, i);
    if input.None? { return Failed(Uncanonical); }
    var (digestMark, valueMark, digest, value) := input.value;
    m, k := m.(inputPartitionDigest := digestMark), k + OnFail(digestMark, PartitionDigestMismatch);
    m, k := m.(valueRecomputation := valueMark), k + OnFail(valueMark, ValueMismatch);
    return Judged(m, k, digest, value);
  }

  lemma PartitionMarksAre(o: Oracles, i: Inputs)
    ensures i.partition.Some? ==> var p := i.partition.value;
      && MarkOf(o, i, PartitionShape) == MarkIf(PartitionShaped(p))
      && MarkOf(o, i, ObservationProfile) == MarkIf(ProfileOk(o, p))
      && MarkOf(o, i, EventIdUniqueness) == MarkIf(UniqueIds(p))
      && MarkOf(o, i, WindowBinding) == MarkIf(WindowBound(p, i.snapshot))
    ensures i.partition.None? ==>
      && !CountableInput(o, i) && PartitionDigest(o, i) == None && Recounted(o, i) == None
      && MarkOf(o, i, PartitionShape) == MarkOf(o, i, ObservationProfile) == NotEvaluated
      && MarkOf(o, i, EventIdUniqueness) == MarkOf(o, i, WindowBinding) == NotEvaluated
      && MarkOf(o, i, InputPartitionDigest) == MarkOf(o, i, ValueRecomputation) == NotEvaluated
  {
    hide PartitionShaped, ProfileOk, UniqueIds, WindowBound;
  }

  /** The digest and the recount of a partition that admits them; None when it has no canonical
      text. */
  method JudgeInput(o: Oracles, i: Inputs) returns (r: Option<(Mark, Mark, Option<string>, Option<nat>)>)
    requires i.partition.Some?
    ensures r == if CountableInput(o, i) && PartitionDigest(o, i).None? then None
                 else Some((MarkOf(o, i, InputPartitionDigest), MarkOf(o, i, ValueRecomputation),
                            PartitionDigest(o, i), Recounted(o, i)))
  {
    hide PartitionShaped, ProfileOk, UniqueIds, WindowBound, Supported, Recount, CanonicalPartition, Observations,
         Claimed, ValueClaimed;
    var p := i.partition.value;
    if !(ProfileOk(o, p) && UniqueIds(p)) { return Some((NotEvaluated, NotEvaluated, None, None)); }
    var digest := o.digest(CanonicalPartition(p));
    if digest.None? { return None; }
    var metric := Supported(i);
    if metric.None? { return Some((MarkIf(Claimed(i, "input_partition_digest", digest)), NotEvaluated, digest, None)); }
    var value := Recount(metric.value, Observations(p));
    return Some((MarkIf(Claimed(i, "input_partition_digest", digest)), MarkIf(ValueClaimed(i, value)), digest, Some(value)));
  }

  lemma EarlyMarksAre(o: Oracles, i: Inputs)
    ensures EarlyMarks(o, i) == Marks(
      MarkIf(SchedulePinned(o, i)), MarkIf(o.validSnapshot(i.snapshot)), MarkIf(ProfileBound(i)),
      MarkIf(Identified(i)), MarkIf(DerivationPinned(o, i)),
      MarkIf(Claimed(i, "metric_definition_digest", o.digest(i.definition))),
      MarkIf(DefinitionPinned(o, i)), MarkIf(WindowTimesOk(o, i)),
      NotEvaluated, NotEvaluated, NotEvaluated, NotEvaluated, NotEvaluated, NotEvaluated, NotEvaluated, NotEvaluated)
  {
    hide SchedulePinned, ProfileBound, Identified, DerivationPinned, Claimed, DefinitionPinned, WindowTimesOk,
         PartitionMark;
  }

  /** `verify`, step by step: conclusions and codes are added as the checks are made. */
  method Verify(o: Oracles, i: Inputs) returns (out: Outcome)
    ensures out == OutcomeOf(o, i)
  {
    hide IdsHashable, RetentionOf, MetricIntegrity, Observations, PartitionDigest, CountableInput, Recounted,
         MarkOf, MarksOf, Codes, EarlyMarks, EarlyCodes, Body, WindowTimesOk;
    if (i.status == Supplied) != i.partition.Some? { return Raised(Usage); }
    if !o.callerTime(i.asOf) { return Raised(Usage); }
    var mark, codes := Fail, [];
    if !o.validSchedule(i.schedule) {
      codes := [RetentionScheduleInvalid];
    } else {
      var d := o.digest(i.schedule);
      if d.None? { return Raised(Uncanonical); }
      mark := MarkIf(d.value == o.schedulePin);
      codes := OnFail(mark, RetentionSchedulePinMismatch);
    }
    var snapshotMark := MarkIf(o.validSnapshot(i.snapshot));
    codes := codes + OnFail(snapshotMark, SnapshotShapeInvalid);
    if Get(i.snapshot, "metric_id").Arr? || Get(i.snapshot, "metric_id").Obj? { return Raised(Unhashable); }
    var mdd := o.digest(i.definition);
    if mdd.None? { return Raised(Uncanonical); }
    var marks;
    marks, codes := JudgeDefinition(o, i, mark, snapshotMark, codes, mdd.value);
    out := Conclude(o, i, marks, codes);
  }

  /** The checks between the snapshot's shape and its window. */
  method JudgeDefinition(o: Oracles, i: Inputs, schedule: Mark, shape: Mark, findings: seq<Code>, mdd: string)
    returns (marks: Marks, codes: seq<Code>)
    requires schedule == MarkIf(SchedulePinned(o, i)) && shape == MarkIf(o.validSnapshot(i.snapshot))
    requires findings == (if !o.validSchedule(i.schedule) then [RetentionScheduleInvalid]
                          else OnFail(schedule, RetentionSchedulePinMismatch)) + OnFail(shape, SnapshotShapeInvalid)
    requires o.digest(i.definition) == Some(mdd)
    ensures marks == EarlyMarks(o, i) && codes == EarlyCodes(o.validSchedule(i.schedule), marks)
  {
    EarlyMarksAre(o, i);
    hide ProfileBound, Identified, DerivationPinned, Claimed, DefinitionPinned, WindowTimesOk, MarkOf, EarlyMarks;
    codes := findings;
    marks := Marks(schedule, shape, NotEvaluated, NotEvaluated, NotEvaluated, NotEvaluated, NotEvaluated,
                   NotEvaluated, NotEvaluated, NotEvaluated, NotEvaluated, NotEvaluated, NotEvaluated,
                   NotEvaluated, NotEvaluated, NotEvaluated);
    var mark := MarkIf(ProfileBound(i));
    marks, codes := marks.(metricProfileBinding := mark), codes + OnFail(mark, UnsupportedMetricProfile);
    mark := MarkIf(Identified(i));
    marks, codes := marks.(metricIdentity := mark), codes + OnFail(mark, MetricIdentityMismatch);
    mark := MarkIf(DerivationPinned(o, i));
    marks, codes := marks.(derivationVersion := mark), codes + OnFail(mark, DerivationVersionMismatch);
    mark := MarkIf(Claimed(i, "metric_definition_digest", Some(mdd)));
    marks, codes := marks.(definitionDigest := mark), codes + OnFail(mark, DefinitionDigestMismatch);
    mark := MarkIf(DefinitionPinned(o, i));
    marks, codes := marks.(definitionPin := mark), codes + OnFail(mark, DefinitionPinMismatch);
    mark := MarkIf(WindowTimesOk(o, i));
    marks, codes := marks.(windowTimestamps := mark), codes + OnFail(mark, WindowMismatch);
  }

  /** The second half of `verify`. */
  method Conclude(o: Oracles, i: Inputs, marks: Marks, codes: seq<Code>) returns (out: Outcome)
    requires marks == EarlyMarks(o, i) && codes == EarlyCodes(o.validSchedule(i.schedule), marks)
    requires (i.status == Supplied) == i.partition.Some? && o.callerTime(i.asOf) && o.digest(i.definition).Some?
    requires o.validSchedule(i.schedule) ==> o.digest(i.schedule).Some?
    requires !Get(i.snapshot, "metric_id").Arr? && !Get(i.snapshot, "metric_id").Obj?
    ensures out == OutcomeOf(o, i)
  {
    hide Claimed, Anonymous, IdsHashable, Body, WindowTimesOk, RetentionOf, MetricIntegrity, Observations,
         PartitionDigest, CountableInput, Recounted, WithPartitionMarks, WithPartitionCodes, EarlyMarks, EarlyCodes;
    var part := JudgePartition(o, i, marks, codes);
    if part.Failed? { return Raised(part.error); }
    var m := part.marks;
    var sd := o.digest(Body(o, i));
    var mark := MarkIf(Claimed(i, "snapshot_digest", sd));
    m := m.(snapshotDigest := mark);
    var k := if sd.None? then [CanonicalizationFailed] else OnFail(mark, SnapshotDigestMismatch);
    mark := MarkIf(Anonymous(i));
    m, k := m.(privacyClassBinding := mark), k + OnFail(mark, PrivacyClassMismatch);
    var retention := RetentionOf(o, i);
    if retention.None? { return Raised(Contradiction); }
    k := k + if retention.value.conformance == Nonconforming then [RetentionNonconforming] else [];
    k := part.codes + k;
    assert m == MarksOf(o, i) && k == Codes(o, i);
    out := Returned(Report(m, MetricIntegrity(m), MarkOf(o, i, RetentionSchedule), o.digest(i.definition),
                           part.digest, part.value, sd, retention.value,
                           if SchedulePinned(o, i) then o.digest(i.schedule) else None, Distinct(k)));
  }

  // ----- the order of the observations does not matter -----

  /** The same partition with its observations in another order. */
  ghost predicate Permuted(p: Json, q: Json) {
    && p.Obj? && q.Obj?
    && Get(p, "observations").Arr? && Get(q, "observations").Arr?
    && multiset(Get(p, "observations").items) == multiset(Get(q, "observations").items)
    && Get(p, "window_start") == Get(q, "window_start") && Get(p, "window_end") == Get(q, "window_end")
    && HasKey(p.members, "window_start") == HasKey(q.members, "window_start")
    && HasKey(p.members, "window_end") == HasKey(q.members, "window_end")
  }

  /** What is used of the observation profile: event ids are texts. */
  ghost predicate TextIds(o: Oracles) {
    forall x :: o.validObservation(x) ==> Get(x, "event_id").Str?
  }

  lemma ByIdPreorder()
    ensures Preorder(ById)
  {
    StrLeByKeyIsPreorder(IdText, ById);
  }

  lemma PermutedObservations(p: Json, q: Json)
    requires Permuted(p, q)
    ensures PartitionShaped(p) == PartitionShaped(q)
    ensures multiset(Observations(p)) == multiset(Observations(q))
  {}

  lemma PermutedIds(p: Json, q: Json)
    requires PartitionShaped(p) == PartitionShaped(q) && multiset(Observations(p)) == multiset(Observations(q))
    ensures UniqueIds(p) == UniqueIds(q) && IdsHashable(Observations(p)) == IdsHashable(Observations(q))
  {
    hide Observations, Keep, Keys, Distinct, IsObject, EventId, Get, PartitionShaped;
    var xs, ys := Observations(p), Observations(q);
    KeepOrderFree(xs, ys, IsObject, EventId);
    assert |xs| == |multiset(xs)| == |multiset(ys)| == |ys|;
  }

  lemma PermutedChecks(o: Oracles, p: Json, q: Json, snapshot: Json)
    requires Permuted(p, q)
    ensures PartitionShaped(p) == PartitionShaped(q) && ProfileOk(o, p) == ProfileOk(o, q)
    ensures UniqueIds(p) == UniqueIds(q) && WindowBound(p, snapshot) == WindowBound(q, snapshot)
    ensures IdsHashable(Observations(p)) == IdsHashable(Observations(q))
  {
    PermutedObservations(p, q);
    assert Get(p, "window_start") == Get(q, "window_start") && Get(p, "window_end") == Get(q, "window_end");
    hide Observations, Get, Same, PartitionShaped, Permuted;
    PermutedIds(p, q);
    hide UniqueIds, IdsHashable;
    var xs, ys := Observations(p), Observations(q);
    forall x ensures x in xs <==> x in ys { assert x in multiset(xs) <==> x in multiset(ys); }
  }

  lemma {:induction false} KeepAll<T(!new)>(xs: seq<T>, p: T -> bool)
    requires forall x :: x in xs ==> p(x)
    ensures Keep(xs, p) == xs
  {
    if xs != [] {
      KeepAll(xs[1..], p);
      assert xs == [xs[0]] + xs[1..];
    }
  }

  /** Unique ids leave no ties for the sort. */
  lemma UniqueIdsOrder(o: Oracles, p: Json)
    requires Countable(o, p) && TextIds(o)
    ensures AntisymmetricOn(ById, Observations(p))
  {
    var obs := Observations(p);
    KeepAll(obs, IsObject);
    DistinctCount(Ids(obs));
    forall x, y | x in obs && y in obs && ById(x, y) && ById(y, x) ensures x == y {
      StrLeAntisymmetric(IdText(x), IdText(y));
      var j :| 0 <= j < |obs| && obs[j] == x;
      var k :| 0 <= k < |obs| && obs[k] == y;
      assert Get(x, "event_id").Str? && Get(y, "event_id").Str?;
      assert Ids(obs)[j] == EventId(x) && Ids(obs)[k] == EventId(y);
      assert EventId(x) == EventId(y);
    }
  }

  lemma PermutedResults(o: Oracles, p: Json, q: Json, metric: Metric)
    requires Permuted(p, q) && TextIds(o) && Countable(o, p)
    ensures CanonicalPartition(p) == CanonicalPartition(q)
    ensures Recount(metric, Observations(p)) == Recount(metric, Observations(q))
  {
    PermutedObservations(p, q);
    ByIdPreorder();
    UniqueIdsOrder(o, p);
    SortForgetsOrder(Observations(p), Observations(q), ById);
    RecountOrderFree(metric, Observations(p), Observations(q));
  }

  /** The complete report, or the error that replaces it, is the same for every order in which the
      partition lists its observations. */
  lemma OrderDoesNotMatter(o: Oracles, i: Inputs, q: Json)
    requires TextIds(o) && i.partition.Some? && Permuted(i.partition.value, q)
    ensures OutcomeOf(o, i.(partition := Some(q))) == OutcomeOf(o, i)
  {
    var p, j := i.partition.value, i.(partition := Some(q));
    PermutedChecks(o, p, q, i.snapshot);
    hide PartitionShaped, ProfileOk, UniqueIds, WindowBound, IdsHashable, Observations, CanonicalPartition, Recount,
         Permuted, TextIds, Get, Same, Reported, MetricIntegrity;
    assert CountableInput(o, i) == CountableInput(o, j);
    if CountableInput(o, i) {
      PermutedResults(o, p, q, if Supported(i).Some? then Supported(i).value else PageViews);
    }
    assert Supported(i) == Supported(j);
    assert PartitionDigest(o, i) == PartitionDigest(o, j) && Recounted(o, i) == Recounted(o, j);
    hide CountableInput, PartitionDigest, Recounted;
    SameOutcome(o, i, j);
  }

  /** Two runs that differ in their partitions only, with the same partition checks and results. */
  ghost predicate Alike(o: Oracles, i: Inputs, j: Inputs) {
    && i.partition.Some? && j.partition.Some? && j == i.(partition := j.partition)
    && PartitionDigest(o, i) == PartitionDigest(o, j) && Recounted(o, i) == Recounted(o, j)
    && CountableInput(o, i) == CountableInput(o, j)
    && var p, q := i.partition.value, j.partition.value;
      PartitionShaped(p) == PartitionShaped(q) && ProfileOk(o, p) == ProfileOk(o, q) && UniqueIds(p) == UniqueIds(q)
      && WindowBound(p, i.snapshot) == WindowBound(q, i.snapshot)
      && IdsHashable(Observations(p)) == IdsHashable(Observations(q))
  }

  lemma SameSnapshotChecks(o: Oracles, i: Inputs, j: Inputs)
    requires Alike(o, i, j)
    ensures SchedulePinned(o, i) == SchedulePinned(o, j) && ProfileBound(i) == ProfileBound(j)
    ensures Identified(i) == Identified(j) && DerivationPinned(o, i) == DerivationPinned(o, j)
    ensures DefinitionPinned(o, i) == DefinitionPinned(o, j) && WindowTimesOk(o, i) == WindowTimesOk(o, j)
    ensures Anonymous(i) == Anonymous(j) && Body(o, i) == Body(o, j)
    ensures forall f, d :: Claimed(i, f, d) == Claimed(j, f, d)
    ensures forall n :: ValueClaimed(i, n) == ValueClaimed(j, n)
    ensures RetentionOf(o, i) == RetentionOf(o, j)
  {
    hide PartitionDigest, Recounted, CountableInput, PartitionShaped, ProfileOk, UniqueIds, WindowBound,
         IdsHashable, Same, MetricOf;
  }

  lemma SameMark(o: Oracles, i: Inputs, j: Inputs, c: Conclusion)
    requires Alike(o, i, j)
    ensures MarkOf(o, i, c) == MarkOf(o, j, c)
  {
    SameSnapshotChecks(o, i, j);
    hide PartitionDigest, Recounted, CountableInput, PartitionShaped, ProfileOk, UniqueIds, WindowBound, IdsHashable,
         SchedulePinned, ProfileBound, Identified, DerivationPinned, DefinitionPinned, WindowTimesOk, Anonymous,
         Body, Claimed, ValueClaimed;
  }

  lemma SameMarks(o: Oracles, i: Inputs, j: Inputs)
    requires Alike(o, i, j)
    ensures MarksOf(o, i) == MarksOf(o, j) && EarlyMarks(o, i) == EarlyMarks(o, j)
    ensures WithPartitionMarks(o, i, EarlyMarks(o, i)) == WithPartitionMarks(o, j, EarlyMarks(o, j))
    ensures MarkOf(o, i, RetentionSchedule) == MarkOf(o, j, RetentionSchedule)
  {
    hide MarkOf, Alike;
    forall c ensures MarkOf(o, i, c) == MarkOf(o, j, c) { SameMark(o, i, j, c); }
  }

  lemma SameError(o: Oracles, i: Inputs, j: Inputs)
    requires Alike(o, i, j)
    ensures ErrorOf(o, i) == ErrorOf(o, j)
  {
    hide PartitionDigest, CountableInput, IdsHashable, Observations, Get, PartitionShaped, ProfileOk, UniqueIds,
         WindowBound, Recounted, RetentionOf, SchedulePinned, ProfileBound, Identified, DerivationPinned,
         DefinitionPinned, WindowTimesOk, Anonymous, Body, Claimed, ValueClaimed;
    SameSnapshotChecks(o, i, j);
    assert i.schedule == j.schedule && i.definition == j.definition && i.snapshot == j.snapshot;
    assert i.status == j.status && i.asOf == j.asOf && i.partition.Some? && j.partition.Some?;
    assert PartitionDigest(o, i) == PartitionDigest(o, j) && CountableInput(o, i) == CountableInput(o, j);
    assert IdsHashable(Observations(i.partition.value)) == IdsHashable(Observations(j.partition.value));
    hide Alike;
  }

  lemma SameOutcome(o: Oracles, i: Inputs, j: Inputs)
    requires Alike(o, i, j)
    ensures OutcomeOf(o, i) == OutcomeOf(o, j)
  {
    SameSnapshotChecks(o, i, j);
    SameMarks(o, i, j);
    SameError(o, i, j);
    assert PartitionDigest(o, i) == PartitionDigest(o, j) && Recounted(o, i) == Recounted(o, j);
    assert i.schedule == j.schedule && i.definition == j.definition;
    hide MarkOf, MarksOf, PartitionDigest, Recounted, Alike, SchedulePinned, Body, RetentionOf, EarlyCodes,
         WithPartitionCodes, LateCodes, MetricIntegrity, Distinct, ErrorOf, EarlyMarks, WithPartitionMarks;
  }

  // ----- what a report means -----

  predicate RetentionCode(k: Code) {
    k.RetentionScheduleInvalid? || k.RetentionSchedulePinMismatch? || k.RetentionNonconforming?
  }

  /** The metric axis fails exactly when a code other than a retention code is reported. */
  lemma MetricFailsWithCode(o: Oracles, i: Inputs)
    requires OutcomeOf(o, i).Returned?
    ensures var r := OutcomeOf(o, i).report;
      r.metric == Fail <==> exists k :: k in r.codes && !RetentionCode(k)
  {
    ReportComplete(o, i);
    forall c | c != RetentionSchedule && MarkOf(o, i, c) == Fail ensures exists k :: Reported(o, i, k) && !RetentionCode(k) {
      MarkHasCode(o, i, c);
    }
    forall k | Reported(o, i, k) && !RetentionCode(k)
      ensures exists c :: c != RetentionSchedule && MarkOf(o, i, c) == Fail
    {
      CodeHasMark(o, i, k);
    }
    hide MarkOf, Reported, RetentionCode, Codes, MarksOf, ErrorOf, Body;
  }

  lemma MarkHasCode(o: Oracles, i: Inputs, c: Conclusion)
    requires c != RetentionSchedule && MarkOf(o, i, c) == Fail
    ensures exists k :: Reported(o, i, k) && !RetentionCode(k)
  {
    hide MarkOf, Body, RetentionOf;
    var k := match c
      case SnapshotShape => SnapshotShapeInvalid
      case MetricProfileBinding => UnsupportedMetricProfile
      case MetricIdentity => MetricIdentityMismatch
      case DerivationVersion => DerivationVersionMismatch
      case DefinitionDigest => DefinitionDigestMismatch
      case DefinitionPin => DefinitionPinMismatch
      case WindowTimestamps | WindowBinding => WindowMismatch
      case PartitionShape => PartitionShapeInvalid
      case ObservationProfile => ObservationProfileInvalid
      case EventIdUniqueness => DuplicateEventId
      case InputPartitionDigest => PartitionDigestMismatch
      case ValueRecomputation => ValueMismatch
      case SnapshotDigest => if o.digest(Body(o, i)).None? then CanonicalizationFailed else SnapshotDigestMismatch
      case _ => PrivacyClassMismatch;
    assert Reported(o, i, k) && !RetentionCode(k);
  }

  lemma CodeHasMark(o: Oracles, i: Inputs, k: Code)
    requires Reported(o, i, k) && !RetentionCode(k)
    ensures exists c :: c != RetentionSchedule && MarkOf(o, i, c) == Fail
  {
    SpecialMarks(o, i);
    hide MarkOf, Body, RetentionOf;
  }

  lemma EveryMarkPasses(o: Oracles, i: Inputs)
    requires OutcomeOf(o, i).Returned? && OutcomeOf(o, i).report.metric == Pass
    ensures forall c :: c != RetentionSchedule ==> MarkOf(o, i, c) == Pass
  {
    ReportComplete(o, i);
    hide MarkOf, Codes, ErrorOf, MarksOf;
    var m := MarksOf(o, i);
    assert MetricIntegrity(m) == Pass;
    forall c | c != RetentionSchedule ensures MarkOf(o, i, c) == Pass {
      assert m.At(c) == MarkOf(o, i, c);
    }
  }

  /** A passing metric: the partition was supplied, its ids are unique, the claimed value is the
      recount, and the claimed digest is that of the observations in id order. */
  lemma MetricPassMeans(o: Oracles, i: Inputs)
    requires OutcomeOf(o, i).Returned? && OutcomeOf(o, i).report.metric == Pass
    ensures i.partition.Some? && Supported(i).Some?
    ensures UniqueIds(i.partition.value) && WindowBound(i.partition.value, i.snapshot)
    ensures ValueClaimed(i, Recount(Supported(i).value, Observations(i.partition.value)))
    ensures Claimed(i, "input_partition_digest", o.digest(CanonicalPartition(i.partition.value)))
    ensures Claimed(i, "snapshot_digest", o.digest(Body(o, i)))
    ensures Claimed(i, "metric_definition_digest", o.digest(i.definition)) && DefinitionPinned(o, i)
  {
    EveryMarkPasses(o, i);
    hide *;
    assert MarkOf(o, i, EventIdUniqueness) == Pass && MarkOf(o, i, WindowBinding) == Pass;
    PassedIds(o, i);
    assert MarkOf(o, i, ValueRecomputation) == Pass && MarkOf(o, i, InputPartitionDigest) == Pass;
    PassedInput(o, i);
    assert MarkOf(o, i, SnapshotDigest) == Pass && MarkOf(o, i, DefinitionDigest) == Pass;
    assert MarkOf(o, i, DefinitionPin) == Pass;
    PassedSnapshot(o, i);
  }

  lemma PassedIds(o: Oracles, i: Inputs)
    requires MarkOf(o, i, EventIdUniqueness) == Pass && MarkOf(o, i, WindowBinding) == Pass
    ensures i.partition.Some?
    ensures UniqueIds(i.partition.value) && WindowBound(i.partition.value, i.snapshot)
  {
    hide UniqueIds, WindowBound;
  }

  lemma PassedInput(o: Oracles, i: Inputs)
    requires MarkOf(o, i, ValueRecomputation) == Pass && MarkOf(o, i, InputPartitionDigest) == Pass
    ensures i.partition.Some? && Supported(i).Some?
    ensures ValueClaimed(i, Recount(Supported(i).value, Observations(i.partition.value)))
    ensures Claimed(i, "input_partition_digest", o.digest(CanonicalPartition(i.partition.value)))
  {
    hide Claimed, Recount, Observations, CanonicalPartition, ValueClaimed, Countable, MetricOf;
  }

  lemma PassedSnapshot(o: Oracles, i: Inputs)
    requires MarkOf(o, i, SnapshotDigest) == Pass && MarkOf(o, i, DefinitionDigest) == Pass
    requires MarkOf(o, i, DefinitionPin) == Pass
    ensures Claimed(i, "snapshot_digest", o.digest(Body(o, i)))
    ensures Claimed(i, "metric_definition_digest", o.digest(i.definition)) && DefinitionPinned(o, i)
  {
    hide Claimed, Body, DefinitionPinned;
  }

  /** The retention axis is independent: another schedule, source status or evaluation time leaves
      the metric axis and every recomputed value as they were. */
  lemma MetricIgnoresRetention(o: Oracles, i: Inputs, j: Inputs)
    requires j == i.(schedule := j.schedule, status := j.status, asOf := j.asOf)
    requires OutcomeOf(o, i).Returned? && OutcomeOf(o, j).Returned?
    ensures var r, t := OutcomeOf(o, i).report, OutcomeOf(o, j).report;
      && r.metric == t.metric && r.value == t.value && r.partitionDigest == t.partitionDigest
      && r.snapshotDigest == t.snapshotDigest && r.definitionDigest == t.definitionDigest
      && forall c :: c != RetentionSchedule ==> r.marks.At(c) == t.marks.At(c)
  {
    SameRecomputed(o, i, j);
    SameMetricMarks(o, i, j);
    hide MarkOf, Codes, ErrorOf, Body, MarksOf, PartitionDigest, Recounted, MetricIntegrity, SchedulePinned,
         RetentionOf, Distinct;
  }

  lemma SameRecomputed(o: Oracles, i: Inputs, j: Inputs)
    requires j == i.(schedule := j.schedule, status := j.status, asOf := j.asOf)
    ensures PartitionDigest(o, i) == PartitionDigest(o, j) && Recounted(o, i) == Recounted(o, j)
    ensures Body(o, i) == Body(o, j) && i.definition == j.definition
  {
    hide MetricOf, Recount, Observations, CanonicalPartition, ProfileOk, UniqueIds;
  }

  lemma SameMetricMarks(o: Oracles, i: Inputs, j: Inputs)
    requires j == i.(schedule := j.schedule, status := j.status, asOf := j.asOf)
    ensures forall c :: c != RetentionSchedule ==> MarksOf(o, i).At(c) == MarksOf(o, j).At(c)
    ensures MetricIntegrity(MarksOf(o, i)) == MetricIntegrity(MarksOf(o, j))
  {
    ReportComplete(o, i);
    ReportComplete(o, j);
    forall c | c != RetentionSchedule ensures MarkOf(o, i, c) == MarkOf(o, j, c) { ScheduleFreeMark(o, i, j, c); }
    hide MarkOf, Codes, MarksOf;
    SameIntegrity(MarksOf(o, i), MarksOf(o, j));
  }

  lemma ScheduleFreeMark(o: Oracles, i: Inputs, j: Inputs, c: Conclusion)
    requires j == i.(schedule := j.schedule, status := j.status, asOf := j.asOf) && c != RetentionSchedule
    ensures MarkOf(o, i, c) == MarkOf(o, j, c)
  {
    hide Same, MetricOf, Recount, Observations, CanonicalPartition, ProfileOk, UniqueIds, PartitionShaped, WindowBound;
  }

  lemma SameIntegrity(m: Marks, n: Marks)
    requires forall c :: c != RetentionSchedule ==> m.At(c) == n.At(c)
    ensures MetricIntegrity(m) == MetricIntegrity(n)
  {}
}
