/** `c2pa_native.py`: the two canonical finding constructors, the axis-by-axis comparison and the
    assembly of a report. The reason/posture matrix of the taxonomy file is a parameter. */
module C2paComparison {
  import opened JsonValue
  import opened C2paNative

  datatype Side = Observed | Recomputed
  datatype Evaluation = Evaluated | InputUnavailable | InvocationError

  datatype Validator = Validator(implementation: string, version: string)
  datatype Inputs = Inputs(assetDigest: string, manifestStoreDigest: Option<string>)
  datatype TrustBasis = TrustBasis(mode: string, materialDigest: Option<string>)
  datatype Clock = Clock(wallClock: bool, callerPinnable: bool, anchored: bool)

  datatype Settings = Settings(
    digest: string,
    remoteManifestFetch: bool,
    ocspFetch: bool,
    allowedNetworkHosts: seq<string>,
    networkAccessPermitted: bool,
    remoteResourceFetchAttempted: bool,
    trustListUriDereferenced: bool,
    ocspFetchPermitted: bool)

  datatype SideFinding = SideFinding(
    side: Side,
    validator: Validator,
    inputs: Inputs,
    settings: Settings,
    trustBasis: TrustBasis,
    clock: Clock,
    evaluation: Evaluation,
    nativeState: Option<string>,
    axes: seq<AxisFinding>)

  function HermeticSettings(digest: string): Settings {
    Settings(digest, false, false, [], false, false, false, false)
  }

  // ----- the constructors -----

  /** What the caller of either constructor supplies. */
  datatype Given = Given(validator: Validator, inputs: Inputs, settingsDigest: string, trustBasis: TrustBasis)

  function FromNativeReport(tax: Taxonomy, side: Side, g: Given, report: Json): SideFinding {
    var es := ParseNativeReport(report);
    SideFinding(side, g.validator, g.inputs, HermeticSettings(g.settingsDigest), g.trustBasis,
                Clock(true, false, Anchored(es)), Evaluated, TextOf(Get(report, "validation_state")),
                CanonicalAxes(tax, es))
  }

  function NotEvaluatedAxes(tax: Taxonomy, order: seq<Axis>): (r: seq<AxisFinding>)
    ensures |r| == |order|
    ensures forall i :: 0 <= i < |order| ==>
      r[i].axis == order[i] && r[i].status == NotEvaluated
      && r[i].reproducibilityClass == tax.spec(order[i]).reproducibilityClass
  {
    seq(|order|, i requires 0 <= i < |order| =>
      AxisFinding(order[i], NotEvaluated, tax.spec(order[i]).reproducibilityClass, tax.spec(order[i]).contributing, []))
  }

  function Unavailable(tax: Taxonomy, side: Side, g: Given): SideFinding {
    SideFinding(side, g.validator, g.inputs, HermeticSettings(g.settingsDigest), g.trustBasis,
                Clock(true, false, false), InputUnavailable, None, NotEvaluatedAxes(tax, AXIS_ORDER))
  }

  /** The finding made from a native report, or from its absence. */
  function Construct(tax: Taxonomy, side: Side, g: Given, report: Option<Json>): SideFinding {
    match report
    case Some(r) => FromNativeReport(tax, side, g, r)
    case None => Unavailable(tax, side, g)
  }

  // ----- comparability -----

  datatype Predicate = Identity | Version | AssetDigest | ManifestStoreDigest | Trust | SettingsDigest

  const PREDICATES: seq<Predicate> := [Identity, Version, AssetDigest, ManifestStoreDigest, Trust, SettingsDigest]

  datatype Comparability = Comparability(
    identity: bool, version: bool, assetDigest: bool, manifestStoreDigest: bool, trust: bool, settings: bool)
  {
    predicate Holds(p: Predicate) {
      match p
      case Identity => identity
      case Version => version
      case AssetDigest => assetDigest
      case ManifestStoreDigest => manifestStoreDigest
      case Trust => trust
      case SettingsDigest => settings
    }
  }

  function Comparable(o: SideFinding, r: SideFinding): Comparability {
    Comparability(
      o.validator.implementation == r.validator.implementation,
      o.validator == r.validator,
      o.inputs.assetDigest == r.inputs.assetDigest,
      o.inputs.manifestStoreDigest == r.inputs.manifestStoreDigest,
      o.trustBasis == r.trustBasis,
      o.settings.digest == r.settings.digest)
  }

  // ----- one axis -----

  datatype State = Match | Mismatch | NotComparable | StateNotEvaluated | OtherState(name: string)

  datatype Reason =
    | InsufficientEvidence
    | RevocationBasisDelta | TrustBasisDelta | TimestampBasisDelta
    | InputDelta
    | ValidatorImplementationDelta
    | ValidatorVersionDelta
    | PolicyDelta
    | SameInputs
    | ValidationClockDelta
    | UnsupportedNativeFeature
    | OtherReason(name: string)

  datatype Posture = NoIntegrityInference | PossibleSubstantiveDivergence | OtherPosture(name: string)

  function BasisReason(axis: Axis): Option<Reason> {
    match axis
    case SignerTrust => Some(TrustBasisDelta)
    case Timestamp => Some(TimestampBasisDelta)
    case Revocation => Some(RevocationBasisDelta)
    case _ => None
  }

  /** The ordered decision procedure of `_compare_axis`. */
  function CompareAxis(axis: Axis, obs: Option<Status>, rec: Option<Status>, klass: string,
                       c: Comparability, clockAnchored: bool): (State, Reason)
  {
    if obs.None? || rec.None? then (StateNotEvaluated, InsufficientEvidence)
    else if axis == Revocation then (NotComparable, RevocationBasisDelta)
    else if !c.assetDigest || !c.manifestStoreDigest then (NotComparable, InputDelta)
    else if !c.identity then (NotComparable, ValidatorImplementationDelta)
    else if !c.version then (NotComparable, ValidatorVersionDelta)
    else if !c.trust && BasisReason(axis).Some? then (NotComparable, BasisReason(axis).value)
    else if !c.settings then (NotComparable, PolicyDelta)
    else if obs == rec then (Match, SameInputs)
    else if klass == TIME_DEPENDENT && !clockAnchored then (NotComparable, ValidationClockDelta)
    else if klass == POLICY_DEPENDENT then (NotComparable, PolicyDelta)
    else if klass == RESOURCE_DEPENDENT then (NotComparable, UnsupportedNativeFeature)
    else (Mismatch, SameInputs)
  }

  type Matrix = map<State, map<Reason, Posture>>

  predicate Legal(m: Matrix, s: State, r: Reason) { s in m && r in m[s] }

  const NOT_COMPARABLE_REASONS: set<Reason> :=
    {RevocationBasisDelta, TrustBasisDelta, TimestampBasisDelta, InputDelta, ValidatorImplementationDelta,
     ValidatorVersionDelta, PolicyDelta, ValidationClockDelta, UnsupportedNativeFeature}

  /** The matrix covers what the comparison emits, and gives a possible divergence only to a
      mismatch on the same inputs. */
  ghost predicate MatrixOk(m: Matrix) {
    && Legal(m, StateNotEvaluated, InsufficientEvidence)
    && Legal(m, Match, SameInputs) && Legal(m, Mismatch, SameInputs)
    && (forall r :: r in NOT_COMPARABLE_REASONS ==> Legal(m, NotComparable, r))
    && (forall s, r :: Legal(m, s, r) ==>
          (m[s][r] == PossibleSubstantiveDivergence <==> s == Mismatch && r == SameInputs))
  }

  lemma EmittedLegal(m: Matrix, axis: Axis, obs: Option<Status>, rec: Option<Status>, klass: string,
                     c: Comparability, clockAnchored: bool)
    requires MatrixOk(m)
    ensures var (s, r) := CompareAxis(axis, obs, rec, klass, c, clockAnchored); Legal(m, s, r)
  {}

  // ----- two sides -----

  datatype Entry = Entry(
    axis: Axis,
    state: State,
    reason: Reason,
    posture: Posture,
    reproducibilityClass: string,
    observedStatus: Option<Status>,
    recomputedStatus: Option<Status>)

  /** `{item["axis"]: item for item in axes}.get(axis)`: the last of several wins. */
  function FindAxis(axes: seq<AxisFinding>, axis: Axis): Option<AxisFinding> {
    if axes == [] then None
    else if axes[|axes| - 1].axis == axis then Some(axes[|axes| - 1])
    else FindAxis(axes[..|axes| - 1], axis)
  }

  function StatusOf(f: Option<AxisFinding>): Option<Status> {
    match f case Some(a) => Some(a.status) case None => None
  }

  function ClassFor(tax: Taxonomy, axis: Axis, obs: Option<AxisFinding>, rec: Option<AxisFinding>): string {
    var c := if rec.Some? then rec.value.reproducibilityClass
             else if obs.Some? then obs.value.reproducibilityClass else "";
    if c == "" then tax.spec(axis).reproducibilityClass else c
  }

  function EntryFor(tax: Taxonomy, m: Matrix, o: SideFinding, r: SideFinding, axis: Axis): Entry
    requires MatrixOk(m)
  {
    var oa, ra := FindAxis(o.axes, axis), FindAxis(r.axes, axis);
    var klass := ClassFor(tax, axis, oa, ra);
    var anchored := o.clock.anchored && r.clock.anchored;
    EmittedLegal(m, axis, StatusOf(oa), StatusOf(ra), klass, Comparable(o, r), anchored);
    var (s, why) := CompareAxis(axis, StatusOf(oa), StatusOf(ra), klass, Comparable(o, r), anchored);
    Entry(axis, s, why, m[s][why], klass, StatusOf(oa), StatusOf(ra))
  }

  function Entries(tax: Taxonomy, m: Matrix, o: SideFinding, r: SideFinding, order: seq<Axis>): (es: seq<Entry>)
    requires MatrixOk(m)
    ensures |es| == |order| && forall i :: 0 <= i < |order| ==> es[i] == EntryFor(tax, m, o, r, order[i])
  {
    if order == [] then [] else [EntryFor(tax, m, o, r, order[0])] + Entries(tax, m, o, r, order[1..])
  }

  method CompareSides(tax: Taxonomy, m: Matrix, o: SideFinding, r: SideFinding)
    returns (comparisons: seq<Entry>, c: Comparability)
    requires MatrixOk(m)
    ensures comparisons == Entries(tax, m, o, r, AXIS_ORDER) && c == Comparable(o, r)
  {
    hide CompareAxis, Comparable, ClassFor, MatrixOk, AXIS_ORDER, FindAxis, Entries;
    c := Comparable(o, r);
    var clockAnchored := o.clock.anchored && r.clock.anchored;
    comparisons := [];
    for i := 0 to |AXIS_ORDER|
      invariant comparisons == Entries(tax, m, o, r, AXIS_ORDER)[..i]
    {
      var axis := AXIS_ORDER[i];
      var obs, rec := FindAxis(o.axes, axis), FindAxis(r.axes, axis);
      var klass := ClassFor(tax, axis, obs, rec);
      var (state, reason) := CompareAxis(axis, StatusOf(obs), StatusOf(rec), klass, c, clockAnchored);
      EmittedLegal(m, axis, StatusOf(obs), StatusOf(rec), klass, c, clockAnchored);
      comparisons := comparisons
        + [Entry(axis, state, reason, m[state][reason], klass, StatusOf(obs), StatusOf(rec))];
    }
  }

  /** A possible divergence is licensed exactly by two different statuses on the same bytes, from
      the same validator version under the same settings, on an axis other than revocation whose
      class does not explain the difference and which trust material does not decide. */
  lemma DivergenceLicensed(tax: Taxonomy, m: Matrix, o: SideFinding, r: SideFinding, axis: Axis)
    requires MatrixOk(m)
    ensures var e, c := EntryFor(tax, m, o, r, axis), Comparable(o, r);
      e.posture == PossibleSubstantiveDivergence <==>
        && e.observedStatus.Some? && e.recomputedStatus.Some? && e.observedStatus != e.recomputedStatus
        && axis != Revocation
        && c.assetDigest && c.manifestStoreDigest && c.identity && c.version && c.settings
        && (c.trust || axis !in {SignerTrust, Timestamp})
        && e.reproducibilityClass !in {POLICY_DEPENDENT, RESOURCE_DEPENDENT}
        && (e.reproducibilityClass == TIME_DEPENDENT ==> o.clock.anchored && r.clock.anchored)
  {
    var oa, ra := FindAxis(o.axes, axis), FindAxis(r.axes, axis);
    EmittedLegal(m, axis, StatusOf(oa), StatusOf(ra), ClassFor(tax, axis, oa, ra), Comparable(o, r),
                 o.clock.anchored && r.clock.anchored);
  }

  /** The two findings differ on an axis in a way nothing excuses: read off their statuses, class,
      clocks and comparability. */
  predicate Diverges(tax: Taxonomy, o: SideFinding, r: SideFinding, axis: Axis) {
    var oa, ra, c := FindAxis(o.axes, axis), FindAxis(r.axes, axis), Comparable(o, r);
    var klass := ClassFor(tax, axis, oa, ra);
    && oa.Some? && ra.Some? && oa.value.status != ra.value.status
    && axis != Revocation
    && c.assetDigest && c.manifestStoreDigest && c.identity && c.version && c.settings
    && (c.trust || (axis != SignerTrust && axis != Timestamp))
    && klass != POLICY_DEPENDENT && klass != RESOURCE_DEPENDENT
    && (klass == TIME_DEPENDENT ==> o.clock.anchored && r.clock.anchored)
  }

  lemma MismatchIsDivergence(tax: Taxonomy, m: Matrix, o: SideFinding, r: SideFinding, axis: Axis)
    requires MatrixOk(m)
    ensures EntryFor(tax, m, o, r, axis).state == Mismatch <==> Diverges(tax, o, r, axis)
    ensures EntryFor(tax, m, o, r, axis).reproducibilityClass
         == ClassFor(tax, axis, FindAxis(o.axes, axis), FindAxis(r.axes, axis))
  {
    hide MatrixOk, FindAxis, Comparable, ClassFor;
  }

  // ----- what each outcome of an axis means -----

  /** The last finding of that axis, when there is one. */
  lemma {:induction false} FindAxisExactly(axes: seq<AxisFinding>, axis: Axis)
    ensures FindAxis(axes, axis) == None <==> forall i :: 0 <= i < |axes| ==> axes[i].axis != axis
    ensures FindAxis(axes, axis).Some? ==>
      exists i :: 0 <= i < |axes| && axes[i].axis == axis && FindAxis(axes, axis) == Some(axes[i])
                  && forall j :: i < j < |axes| ==> axes[j].axis != axis
  {
    if axes != [] {
      var n := |axes| - 1;
      FindAxisExactly(axes[..n], axis);
      assert forall i :: 0 <= i < n ==> axes[..n][i] == axes[i];
      if axes[n].axis == axis { assert axes[n].axis == axis; }
    }
  }

  /** The class is the recomputed side's, or else the observed side's, or else the taxonomy's. */
  lemma ClassExactly(tax: Taxonomy, o: SideFinding, r: SideFinding, axis: Axis, m: Matrix)
    requires MatrixOk(m)
    ensures var oa, ra, klass := FindAxis(o.axes, axis), FindAxis(r.axes, axis), EntryFor(tax, m, o, r, axis).reproducibilityClass;
      && (ra.Some? && ra.value.reproducibilityClass != "" ==> klass == ra.value.reproducibilityClass)
      && (ra.None? && oa.Some? && oa.value.reproducibilityClass != "" ==> klass == oa.value.reproducibilityClass)
      && ((ra.Some? && ra.value.reproducibilityClass == "") || (ra.None? && oa.None?)
          || (ra.None? && oa.Some? && oa.value.reproducibilityClass == "") ==>
            klass == tax.spec(axis).reproducibilityClass)
  {
    hide CompareAxis, MatrixOk, FindAxis;
  }

  /** Both sides saw the axis, from the same bytes, on an axis that can be compared at all. */
  predicate SameBytes(o: SideFinding, r: SideFinding, axis: Axis) {
    && FindAxis(o.axes, axis).Some? && FindAxis(r.axes, axis).Some? && axis != Revocation
    && o.inputs.assetDigest == r.inputs.assetDigest && o.inputs.manifestStoreDigest == r.inputs.manifestStoreDigest
  }

  /** And nothing the caller supplied tells the two sides apart. */
  predicate SameBasis(o: SideFinding, r: SideFinding, axis: Axis) {
    && SameBytes(o, r, axis)
    && o.validator.implementation == r.validator.implementation && o.validator.version == r.validator.version
    && (o.trustBasis == r.trustBasis || (axis != SignerTrust && axis != Timestamp))
    && o.settings.digest == r.settings.digest
  }

  /** A match is two known, equal statuses on one basis, and a mismatch two different ones there that the
      class of the axis does not explain. */
  lemma MatchExactly(tax: Taxonomy, m: Matrix, o: SideFinding, r: SideFinding, axis: Axis)
    requires MatrixOk(m)
    ensures var e := EntryFor(tax, m, o, r, axis);
      && (e.state == Match <==>
            SameBasis(o, r, axis) && FindAxis(o.axes, axis).value.status == FindAxis(r.axes, axis).value.status)
      && (e.state == Mismatch <==>
            && SameBasis(o, r, axis)
            && FindAxis(o.axes, axis).value.status != FindAxis(r.axes, axis).value.status
            && e.reproducibilityClass != "policy_dependent" && e.reproducibilityClass != "resource_dependent"
            && (e.reproducibilityClass == "time_dependent" ==> o.clock.anchored && r.clock.anchored))
      && (e.state == StateNotEvaluated <==> FindAxis(o.axes, axis).None? || FindAxis(r.axes, axis).None?)
      && (e.state in {Match, Mismatch, StateNotEvaluated, NotComparable})
      && (e.state == Match || e.state == Mismatch <==> e.reason == SameInputs)
      && (e.state == StateNotEvaluated <==> e.reason == InsufficientEvidence)
  {
    hide MatrixOk, FindAxis, ClassFor;
  }

  /** Each reason not to compare, by the first condition that applies. */
  lemma ReasonsExactly(tax: Taxonomy, m: Matrix, o: SideFinding, r: SideFinding, axis: Axis)
    requires MatrixOk(m)
    ensures var e := EntryFor(tax, m, o, r, axis);
      var known := FindAxis(o.axes, axis).Some? && FindAxis(r.axes, axis).Some?;
      var version := SameBytes(o, r, axis) && o.validator.implementation == r.validator.implementation;
      var validator := version && o.validator.version == r.validator.version;
      && (e.reason == RevocationBasisDelta <==> known && axis == Revocation)
      && (e.reason == InputDelta <==>
            && known && axis != Revocation
            && (o.inputs.assetDigest != r.inputs.assetDigest
                || o.inputs.manifestStoreDigest != r.inputs.manifestStoreDigest))
      && (e.reason == ValidatorImplementationDelta <==> SameBytes(o, r, axis) && !version)
      && (e.reason == ValidatorVersionDelta <==> version && !validator)
      && (e.reason == TrustBasisDelta <==> validator && axis == SignerTrust && o.trustBasis != r.trustBasis)
      && (e.reason == TimestampBasisDelta <==> validator && axis == Timestamp && o.trustBasis != r.trustBasis)
  {
    hide MatrixOk, FindAxis, ClassFor;
  }

  lemma LateReasonsExactly(tax: Taxonomy, m: Matrix, o: SideFinding, r: SideFinding, axis: Axis)
    requires MatrixOk(m)
    ensures var e := EntryFor(tax, m, o, r, axis);
      var trusted := SameBytes(o, r, axis) && o.validator == r.validator
                     && (o.trustBasis == r.trustBasis || (axis != SignerTrust && axis != Timestamp));
      var differ := SameBasis(o, r, axis)
                    && FindAxis(o.axes, axis).value.status != FindAxis(r.axes, axis).value.status;
      && (e.reason == PolicyDelta <==>
            (trusted && o.settings.digest != r.settings.digest)
            || (differ && e.reproducibilityClass == "policy_dependent"))
      && (e.reason == ValidationClockDelta <==>
            differ && e.reproducibilityClass == "time_dependent" && !(o.clock.anchored && r.clock.anchored))
      && (e.reason == UnsupportedNativeFeature <==> differ && e.reproducibilityClass == "resource_dependent")
  {
    hide MatrixOk, FindAxis, ClassFor;
  }

  // ----- the report -----

  /** `keys` are the dict keys of the report other than the contract's own fixed ones: the keys of
      what callers supplied. */
  datatype Report = Report(
    keys: seq<string>,
    recomputed: Option<SideFinding>,
    observed: Option<SideFinding>,
    comparison: Option<seq<Entry>>,
    comparability: Option<Comparability>)

  /** `comparison` and `comparability` are there exactly when `observed` is. */
  function BuildReport(tax: Taxonomy, m: Matrix, keys: seq<string>, recomputed: SideFinding,
                       observed: Option<SideFinding>): Report
    requires MatrixOk(m)
  {
    match observed
    case None => Report(keys, Some(recomputed), None, None, None)
    case Some(o) =>
      Report(keys, Some(recomputed), observed, Some(Entries(tax, m, o, recomputed, AXIS_ORDER)),
             Some(Comparable(o, recomputed)))
  }
}
