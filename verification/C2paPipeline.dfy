/** `c2pa_srs_observed.py`, `consume_observation`: the fixed-order pipeline, its stop rule, and the
    effective axis views under a comparability restriction. Modelled are the native findings on
    their way through matching, the profile's field schema and construction, and the comparison;
    the other checks of those stages, parsing and recomputation have arbitrary outcomes. */
module C2paPipeline {
  import opened JsonValue
  import opened C2paNative
  import C2paObserved
  import C2paRebuild
  import C2paConsumed
  import opened C2paComparison
  import opened C2paConformance

  datatype Stage = InputParse | InputCorrespondence | ProfileConformance | Construction | Recomputation | Comparing

  const STAGES: seq<Stage> :=
    [InputParse, InputCorrespondence, ProfileConformance, Construction, Recomputation, Comparing]

  datatype StageStatus = Completed | Refused | StageNotEvaluated | Restricted | NotRun

  /** The status of every stage. */
  datatype Stages = Stages(
    parse: StageStatus, correspondence: StageStatus, conformance: StageStatus,
    construction: StageStatus, recomputation: StageStatus, comparing: StageStatus)
  {
    function At(s: Stage): StageStatus {
      match s
      case InputParse => parse
      case InputCorrespondence => correspondence
      case ProfileConformance => conformance
      case Construction => construction
      case Recomputation => recomputation
      case Comparing => comparing
    }
  }

  const FRESH_STAGES := Stages(NotRun, NotRun, NotRun, NotRun, NotRun, NotRun)

  datatype RecomputeOutcome = Recomputed(finding: SideFinding) | RecomputeRefused | NoValidator

  /** What construction maps from an observation other than its native findings; `performed` tells
      a recorded native evaluation from an unavailable input. */
  datatype Mapping = Mapping(given: Given, settings: Settings, performed: bool)

  /** One run: the parsed observation, a JSON object; the retained native report, where its bytes were
      supplied and could be read; whether every other check of the matching and of the profile
      passed; the mapping, None when something has no canonical value; what recomputation yields;
      and `schema` and `keys`, which the report check will see. `repr` prints lists and dicts. */
  datatype Run = Run(
    observation: Option<Json>,
    retainedReport: Option<Json>,
    otherMatches: bool,
    otherConformance: bool,
    mapping: Option<Mapping>,
    recompute: RecomputeOutcome,
    schema: seq<string>,
    keys: seq<string>,
    repr: Json -> string)

  // ----- the stages before the comparison -----

  function Claimed(run: Run): Json {
    match run.observation case Some(obs) => C2paConsumed.ClaimedFindings(obs) case None => Null
  }

  /** The claimed validation state, carried into the rebuilt report. */
  function ClaimedState(run: Run): Json {
    match run.observation case Some(obs) => Get(Get(obs, "native_report"), "native_validation_state") case None => Null
  }

  predicate FindingsMatch(run: Run) {
    run.retainedReport.Some? ==>
      C2paObserved.FindingsMismatch(Claimed(run), run.retainedReport.value, run.repr) == None
  }

  predicate Corresponds(run: Run) { run.otherMatches && FindingsMatch(run) }

  predicate Conforms(run: Run) {
    run.otherConformance && (run.observation.Some? ==> C2paConsumed.FindingsAdmitted(run.observation.value))
  }

  /** `construct_observed_side`; None where the mapping or the rebuilding fails. */
  function Constructed(tax: Taxonomy, run: Run): Option<SideFinding> {
    var m :- run.mapping;
    if m.performed then
      var report :- C2paRebuild.Rebuild(Claimed(run), ClaimedState(run));
      Some(FromNativeReport(tax, Observed, m.given, report).(settings := m.settings))
    else Some(Unavailable(tax, Observed, m.given).(settings := m.settings))
  }

  // ----- the comparability restriction -----

  datatype RestrictionReason = SignerInputsUncaptured | TsaMaterialUncaptured | DeclaredWithoutReason

  datatype Restriction = Restriction(receiptWide: bool, reasons: seq<RestrictionReason>, timestampRestricted: bool)

  predicate TsaDisclosed(obs: Json) {
    var inputs := Get(obs, "unavailable_inputs");
    inputs.Arr? && exists i :: 0 <= i < |inputs.items| && Get(inputs.items[i], "input") == Str("tsa_trust_material")
  }

  predicate DeclaredNotComparable(obs: Json) {
    Get(obs, "later_comparison_posture") == Str("not_comparable")
  }

  function RestrictionOf(obs: Json): Restriction {
    var signer := Get(Get(obs, "signer_trust"), "trust_basis") == Str("unknown_not_captured");
    var stated := (if signer then [SignerInputsUncaptured] else [])
                  + (if TsaDisclosed(obs) then [TsaMaterialUncaptured] else []);
    var wide := DeclaredNotComparable(obs);
    Restriction(wide, if wide && stated == [] then [DeclaredWithoutReason] else stated, TsaDisclosed(obs))
  }

  // ----- the comparison stage -----

  function StageCompare(tax: Taxonomy, m: Matrix, run: Run, observed: Option<SideFinding>, rec: SideFinding)
    : (Option<Report>, StageStatus)
    requires MatrixOk(m)
  {
    match observed
    case None => (None, StageNotEvaluated)
    case Some(o) =>
      if o.evaluation != Evaluated || rec.evaluation != Evaluated then (None, StageNotEvaluated)
      else if o.inputs != rec.inputs then (None, Refused)
      else
        var report := BuildReport(tax, m, run.keys, rec, Some(o));
        (Some(report), if CheckReport(m, run.schema, report) == [] then Completed else Refused)
  }

  // ----- the run -----

  function FirstIncomplete(stages: Stages, order: seq<Stage>): Option<Stage> {
    if order == [] then None
    else if stages.At(order[0]) != Completed then Some(order[0])
    else FirstIncomplete(stages, order[1..])
  }

  /** How each stage ends, stage by stage: when it runs at all, and then with what status. */
  function EndOf(tax: Taxonomy, m: Matrix, run: Run, s: Stage): StageStatus
    requires MatrixOk(m)
    decreases match s case InputParse => 0 case InputCorrespondence => 1 case ProfileConformance => 2
                      case Construction => 3 case Recomputation => 4 case Comparing => 5
  {
    match s
    case InputParse => if run.observation.Some? then Completed else Refused
    case InputCorrespondence =>
      if EndOf(tax, m, run, InputParse) != Completed then NotRun
      else if Corresponds(run) then Completed else Refused
    case ProfileConformance =>
      if EndOf(tax, m, run, InputCorrespondence) != Completed then NotRun
      else if Conforms(run) then Completed else Refused
    case Construction =>
      if EndOf(tax, m, run, ProfileConformance) != Completed then NotRun
      else if Constructed(tax, run).Some? then Completed else Refused
    case Recomputation =>
      if EndOf(tax, m, run, ProfileConformance) != Completed then NotRun
      else (match run.recompute
            case Recomputed(_) => Completed
            case RecomputeRefused => Refused
            case NoValidator => StageNotEvaluated)
    case Comparing =>
      if EndOf(tax, m, run, Recomputation) != Completed || !run.recompute.Recomputed? || run.observation.None?
      then NotRun
      else
        var status := StageCompare(tax, m, run, Constructed(tax, run), run.recompute.finding).1;
        if status == Completed && DeclaredNotComparable(run.observation.value) then Restricted else status
  }

  class Pipeline {
    var stages: Stages
    var obs: Option<Json>
    var observed: Option<SideFinding>
    var recomputed: Option<SideFinding>
    var comparison: Option<Report>
    const tax: Taxonomy
    const matrix: Matrix

    ghost predicate Valid()
      reads this
    {
      MatrixOk(matrix)
    }

    constructor (tax: Taxonomy, matrix: Matrix)
      requires MatrixOk(matrix)
      ensures Valid() && this.tax == tax && this.matrix == matrix
      ensures stages == FRESH_STAGES
      ensures obs == None && observed == None && recomputed == None && comparison == None
    {
      this.tax, this.matrix := tax, matrix;
      stages := FRESH_STAGES;
      obs, observed, recomputed, comparison := None, None, None, None;
    }

    /** `construct_observed_side` refuses to run before its two predecessors completed. */
    method Construct(run: Run)
      requires Valid() && stages.correspondence == Completed && stages.conformance == Completed
      modifies this
      ensures Valid() && obs == old(obs) && recomputed == old(recomputed) && comparison == old(comparison)
      ensures observed == Constructed(tax, run)
      ensures stages == old(stages).(construction := if Constructed(tax, run).Some? then Completed else Refused)
    {
      hide C2paRebuild.Rebuild, FromNativeReport, Unavailable;
      if run.mapping.None? {
        stages, observed := stages.(construction := Refused), None;
        return;
      }
      var m := run.mapping.value;
      var finding := Unavailable(tax, Observed, m.given);
      if m.performed {
        var report := C2paRebuild.RebuildLoop(Claimed(run), ClaimedState(run));
        if report.None? {
          stages, observed := stages.(construction := Refused), None;
          return;
        }
        finding := FromNativeReport(tax, Observed, m.given, report.value);
      }
      observed := Some(finding.(settings := m.settings));
      stages := stages.(construction := Completed);
    }

    /** The findings of a supplied report are matched with the claims. */
    method Correspond(run: Run)
      requires Valid() && run.observation.Some?
      modifies this`stages
      ensures stages == old(stages).(correspondence := if Corresponds(run) then Completed else Refused)
    {
      hide C2paObserved.FindingsMismatch;
      var ok := run.otherMatches;
      if run.retainedReport.Some? {
        var problem := C2paObserved.CheckFindings(Claimed(run), run.retainedReport.value, run.repr);
        if problem.Some? { ok := false; }
      }
      stages := stages.(correspondence := if ok then Completed else Refused);
    }

    /** One run, from fresh state to the stage it stopped at. */
    method Consume(run: Run) returns (stoppedAt: Option<Stage>)
      requires Valid() && obs == None && observed == None && recomputed == None && comparison == None
      requires stages == FRESH_STAGES
      modifies this
      ensures Valid()
      ensures stoppedAt == FirstIncomplete(stages, STAGES)
      ensures forall s :: stages.At(s) == EndOf(tax, matrix, run, s)
      ensures obs == run.observation
      ensures comparison.Some? ==> obs.Some? && stages.conformance == Completed
      ensures stages.recomputation == Completed ==>
        && run.recompute.Recomputed? && recomputed == Some(run.recompute.finding)
        && observed == Constructed(tax, run)
        && comparison == StageCompare(tax, matrix, run, observed, run.recompute.finding).0
    {
      hide StageCompare, MatrixOk, FirstIncomplete, DeclaredNotComparable, Constructed, Corresponds, Conforms;
      if run.observation.None? {
        stages := stages.(parse := Refused);
        StopsAt(stages, STAGES, 0);
        return Some(InputParse);
      }
      stages := stages.(parse := Completed);
      obs := run.observation;
      Correspond(run);
      if stages.correspondence != Completed {
        StopsAt(stages, STAGES, 1);
        return Some(InputCorrespondence);
      }
      stages := stages.(conformance := if Conforms(run) then Completed else Refused);
      if !Conforms(run) {
        StopsAt(stages, STAGES, 2);
        return Some(ProfileConformance);
      }
      Construct(run);
      match run.recompute {
        case RecomputeRefused =>
          stages := stages.(recomputation := Refused);
        case NoValidator =>
          stages := stages.(recomputation := StageNotEvaluated);
        case Recomputed(finding) =>
          stages := stages.(recomputation := Completed);
          recomputed := Some(finding);
          Compare(run);
      }
      stoppedAt := FirstIncomplete(stages, STAGES);
    }

    /** The last stage, reached only after a completed recomputation. A completed comparison of a
        receipt restricted as a whole is downgraded. */
    method Compare(run: Run)
      requires Valid() && obs.Some? && run.recompute.Recomputed?
      modifies this
      ensures Valid() && obs == old(obs) && observed == old(observed) && recomputed == old(recomputed)
      ensures comparison == StageCompare(tax, matrix, run, observed, run.recompute.finding).0
      ensures stages == old(stages).(comparing := stages.comparing)
      ensures var status := StageCompare(tax, matrix, run, observed, run.recompute.finding).1;
        stages.comparing == if status == Completed && DeclaredNotComparable(obs.value) then Restricted else status
      ensures stages.comparing in {Completed, Restricted} ==> observed.Some?
      ensures stages.comparing in {Completed, Restricted, Refused, StageNotEvaluated}
    {
      hide StageCompare, RestrictionOf, MatrixOk;
      var (report, status) := StageCompare(tax, matrix, run, observed, run.recompute.finding);
      CompareOutcomes(tax, matrix, run, observed, run.recompute.finding);
      var restriction := RestrictionOf(obs.value);
      RestrictionScope(obs.value);
      if status == Completed && restriction.receiptWide { status := Restricted; }
      stages := stages.(comparing := status);
      comparison := report;
    }
  }

  /** A stop in the first three stages leaves every later stage unrun; the comparison is completed
      or restricted only after all five earlier stages completed, and restricted exactly when the
      observation declares itself not comparable. */
  lemma RunOrder(tax: Taxonomy, m: Matrix, run: Run)
    requires MatrixOk(m)
    ensures forall i, j :: 0 <= i < 3 && i < j < 6 && EndOf(tax, m, run, STAGES[i]) != Completed ==>
      EndOf(tax, m, run, STAGES[j]) == NotRun
    ensures EndOf(tax, m, run, Comparing) in {Completed, Restricted} ==>
      forall i :: 0 <= i < 5 ==> EndOf(tax, m, run, STAGES[i]) == Completed
    ensures EndOf(tax, m, run, Comparing) in {Completed, Restricted} ==>
      run.observation.Some?
      && (EndOf(tax, m, run, Comparing) == Restricted <==> DeclaredNotComparable(run.observation.value))
    ensures EndOf(tax, m, run, Comparing) == NotRun <==> EndOf(tax, m, run, Recomputation) != Completed
  {
    hide StageCompare, MatrixOk, DeclaredNotComparable, Constructed, Corresponds, Conforms;
    if run.recompute.Recomputed? {
      CompareOutcomes(tax, m, run, Constructed(tax, run), run.recompute.finding);
    }
  }

  /** When an observed side is constructed from a recorded evaluation and the native report was
      retained, its axes and clock anchor are those of normalising the retained report itself; and
      construction is refused only where the mapping is. */
  lemma ObservedSideFaithful(tax: Taxonomy, m: Matrix, run: Run)
    requires MatrixOk(m)
    ensures EndOf(tax, m, run, Construction) == Refused ==> run.mapping.None?
    ensures EndOf(tax, m, run, Construction) == Completed ==> run.mapping.Some? && Constructed(tax, run).Some?
    ensures EndOf(tax, m, run, Construction) == Completed && run.mapping.value.performed && run.retainedReport.Some? ==>
      var o, es := Constructed(tax, run).value, ParseNativeReport(run.retainedReport.value);
      && |o.axes| == |AXIS_ORDER| && o.clock.anchored == Anchored(es)
      && forall i :: 0 <= i < |AXIS_ORDER| ==>
           var a, b := o.axes[i], CanonicalAxes(tax, es)[i];
           a.axis == b.axis && a.status == b.status && a.reproducibilityClass == b.reproducibilityClass
  {
    hide StageCompare, MatrixOk, C2paConsumed.FindingsAdmitted, C2paObserved.FindingsMismatch, C2paRebuild.Rebuild,
         ParseNativeReport, CanonicalAxes, Anchored, Unavailable;
    if Conforms(run) && run.observation.Some? {
      C2paConsumed.AdmittedClaims(run.observation.value);
      C2paConsumed.AdmittedRebuilds(Claimed(run), ClaimedState(run));
      if FindingsMatch(run) && run.retainedReport.Some? {
        C2paConsumed.ConsumedAxesAgree(tax, Claimed(run), run.retainedReport.value, ClaimedState(run), run.repr);
        if run.mapping.Some? {
          SideOfReport(tax, run.mapping.value, C2paRebuild.Rebuild(Claimed(run), ClaimedState(run)).value,
                       ParseNativeReport(run.retainedReport.value));
        }
      }
    }
  }

  lemma SideOfReport(tax: Taxonomy, m: Mapping, report: Json, fs: seq<NativeEntry>)
    requires C2paConsumed.AxesAgree(tax, ParseNativeReport(report), fs)
    ensures var o := FromNativeReport(tax, Observed, m.given, report).(settings := m.settings);
      && |o.axes| == |AXIS_ORDER| && o.clock.anchored == Anchored(fs)
      && forall i :: 0 <= i < |AXIS_ORDER| ==>
           var a, b := o.axes[i], CanonicalAxes(tax, fs)[i];
           a.axis == b.axis && a.status == b.status && a.reproducibilityClass == b.reproducibilityClass
  {
    var es := ParseNativeReport(report);
    assert |CanonicalAxes(tax, es)| == |AXIS_ORDER|;
    hide ParseNativeReport, CanonicalAxes, Anchored;
    var o := FromNativeReport(tax, Observed, m.given, report).(settings := m.settings);
    assert o.axes == CanonicalAxes(tax, es);
    forall i | 0 <= i < |AXIS_ORDER|
      ensures o.axes[i].axis == CanonicalAxes(tax, fs)[i].axis && o.axes[i].status == CanonicalAxes(tax, fs)[i].status
      ensures o.axes[i].reproducibilityClass == CanonicalAxes(tax, fs)[i].reproducibilityClass
    {
      assert C2paConsumed.AxisAgrees(tax, es, fs, i);
    }
  }

  lemma CompareOutcomes(tax: Taxonomy, m: Matrix, run: Run, observed: Option<SideFinding>, rec: SideFinding)
    requires MatrixOk(m)
    ensures var s := StageCompare(tax, m, run, observed, rec).1;
      s in {Completed, Refused, StageNotEvaluated} && (s == Completed ==> observed.Some?)
  {}

  lemma RestrictionScope(obs: Json)
    ensures RestrictionOf(obs).receiptWide == DeclaredNotComparable(obs)
  {}

  lemma {:induction false} StopsAt(stages: Stages, order: seq<Stage>, i: nat)
    requires i < |order|
    requires stages.At(order[i]) != Completed && forall j :: 0 <= j < i ==> stages.At(order[j]) == Completed
    ensures FirstIncomplete(stages, order) == Some(order[i])
  {
    if i > 0 { StopsAt(stages, order[1..], i - 1); }
  }

  /** The stop is the earliest stage that did not complete, and there is none exactly when all
      completed. */
  lemma {:induction false} FirstIncompleteMeans(stages: Stages, order: seq<Stage>)
    ensures match FirstIncomplete(stages, order)
      case None => forall s :: s in order ==> stages.At(s) == Completed
      case Some(s) => exists i :: 0 <= i < |order| && order[i] == s && stages.At(s) != Completed
                        && forall j :: 0 <= j < i ==> stages.At(order[j]) == Completed
  {
    if order != [] {
      FirstIncompleteMeans(stages, order[1..]);
      if stages.At(order[0]) == Completed {
        match FirstIncomplete(stages, order[1..])
        case None =>
        case Some(s) =>
          var i :| 0 <= i < |order[1..]| && order[1..][i] == s
                   && forall j :: 0 <= j < i ==> stages.At(order[1..][j]) == Completed;
          forall j | 0 <= j < i + 1 ensures stages.At(order[j]) == Completed {
            if j > 0 { assert order[j] == order[1..][j - 1]; }
          }
          assert order[i + 1] == s;
      }
    }
  }

  // ----- effective axis views -----

  datatype ViewState = AsCompared(state: State) | RestrictedReceiptWide | TimestampNotComparable

  datatype View = View(state: ViewState, posture: Posture, entry: Entry, bothNotEvaluated: bool)

  /** `comparison_for`: how one compared axis is reported under the restriction. */
  function ViewOf(restriction: Option<Restriction>, e: Entry): View {
    if restriction.Some? && restriction.value.receiptWide then
      View(RestrictedReceiptWide, NoIntegrityInference, e, false)
    else if e.axis == Timestamp && restriction.Some? && restriction.value.timestampRestricted
            && e.state in {Match, Mismatch} then
      View(TimestampNotComparable, NoIntegrityInference, e, false)
    else
      View(AsCompared(e.state), e.posture, e, e.state == Match && e.observedStatus == Some(NotEvaluated))
  }

  function Views(restriction: Option<Restriction>, es: seq<Entry>): (r: seq<View>)
    ensures |r| == |es| && forall i :: 0 <= i < |es| ==> r[i] == ViewOf(restriction, es[i])
  {
    seq(|es|, i requires 0 <= i < |es| => ViewOf(restriction, es[i]))
  }

  /** The restriction the assembly applies: that of an observation which passed conformance. */
  function EffectiveRestriction(obs: Option<Json>, conformance: StageStatus): Option<Restriction> {
    if obs.Some? && conformance == Completed then Some(RestrictionOf(obs.value)) else None
  }

  /** The receipt, or the one axis, is restricted by the observation itself. */
  predicate Barred(obs: Json, axis: Axis) {
    DeclaredNotComparable(obs) || (axis == Timestamp && TsaDisclosed(obs))
  }

  predicate Agreement(v: View) { v.state in {AsCompared(Match), AsCompared(Mismatch)} }

  /** After any run, a receipt declared not comparable has no axis in an effective match or mismatch
      and no integrity inference; undisclosed timestamp-authority trust likewise bars the timestamp
      axis; every other view is the contract's own entry. */
  method ConsumeAndView(tax: Taxonomy, matrix: Matrix, run: Run)
    returns (stoppedAt: Option<Stage>, views: seq<View>)
    requires MatrixOk(matrix)
    ensures views != [] ==> run.observation.Some?
    ensures forall i :: 0 <= i < |views| && DeclaredNotComparable(run.observation.value) ==>
      !Agreement(views[i]) && views[i].posture == NoIntegrityInference
    ensures forall i :: 0 <= i < |views| && TsaDisclosed(run.observation.value) && views[i].entry.axis == Timestamp ==>
      !Agreement(views[i])
    ensures forall i :: 0 <= i < |views| && !Barred(run.observation.value, views[i].entry.axis) ==>
      views[i].state == AsCompared(views[i].entry.state) && views[i].posture == views[i].entry.posture
    ensures stoppedAt == None ==>
      && Constructed(tax, run).Some? && run.recompute.Recomputed?
      && |views| == |AXIS_ORDER|
      && forall i :: 0 <= i < |AXIS_ORDER| ==>
           views[i].entry == EntryFor(tax, matrix, Constructed(tax, run).value, run.recompute.finding, AXIS_ORDER[i])
  {
    hide Constructed, Corresponds, Conforms, MatrixOk, StageCompare, AXIS_ORDER, EntryFor, DeclaredNotComparable,
         TsaDisclosed, ViewOf, RestrictionOf, Agreement, FirstIncomplete, EndOf, Barred;
    var p := new Pipeline(tax, matrix);
    stoppedAt := p.Consume(run);
    var restriction := EffectiveRestriction(p.obs, p.stages.conformance);
    views := [];
    if p.comparison.Some? && p.comparison.value.comparison.Some? {
      var es := p.comparison.value.comparison.value;
      views := Views(restriction, es);
      forall i | 0 <= i < |es| ensures ViewAllowed(run.observation.value, es[i], views[i]) {
        ViewBarred(run.observation.value, es[i]);
      }
    }
    if stoppedAt == None {
      AllStagesCompleted(p.stages);
      CompletedRun(tax, matrix, run);
      CompletedComparison(tax, matrix, run, p.observed, run.recompute.finding);
    }
  }

  /** What an observation leaves of the view of one contract entry. */
  predicate ViewAllowed(obs: Json, e: Entry, v: View) {
    && v.entry == e
    && (DeclaredNotComparable(obs) ==> !Agreement(v) && v.posture == NoIntegrityInference)
    && (TsaDisclosed(obs) && e.axis == Timestamp ==> !Agreement(v))
    && (!Barred(obs, e.axis) ==> v.state == AsCompared(e.state) && v.posture == e.posture)
  }

  lemma ViewBarred(obs: Json, e: Entry)
    ensures ViewAllowed(obs, e, ViewOf(Some(RestrictionOf(obs)), e))
  {
    RestrictionScope(obs);
    hide DeclaredNotComparable, TsaDisclosed;
  }

  lemma AllStagesCompleted(stages: Stages)
    requires FirstIncomplete(stages, STAGES) == None
    ensures stages.construction == Completed && stages.recomputation == Completed && stages.comparing == Completed
  {
    FirstIncompleteMeans(stages, STAGES);
    assert Construction in STAGES && Recomputation in STAGES && Comparing in STAGES;
    hide FirstIncomplete;
    assert stages.At(Construction) == stages.At(Recomputation) == stages.At(Comparing) == Completed;
  }

  lemma CompletedRun(tax: Taxonomy, m: Matrix, run: Run)
    requires MatrixOk(m)
    ensures EndOf(tax, m, run, Construction) == Completed ==> Constructed(tax, run).Some?
    ensures EndOf(tax, m, run, Comparing) == Completed ==>
      run.recompute.Recomputed?
      && StageCompare(tax, m, run, Constructed(tax, run), run.recompute.finding).1 == Completed
  {
    hide StageCompare, Constructed, Corresponds, Conforms, MatrixOk, DeclaredNotComparable;
  }

  lemma CompletedComparison(tax: Taxonomy, m: Matrix, run: Run, observed: Option<SideFinding>, rec: SideFinding)
    requires MatrixOk(m)
    ensures StageCompare(tax, m, run, observed, rec).1 == Completed ==>
      && observed.Some?
      && StageCompare(tax, m, run, observed, rec).0.Some?
      && StageCompare(tax, m, run, observed, rec).0.value.comparison
         == Some(Entries(tax, m, observed.value, rec, AXIS_ORDER))
  {}
}
