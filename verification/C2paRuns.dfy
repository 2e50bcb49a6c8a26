/** `c2pa_srs_observed.py`: what the stages of a run, its restriction and its axis views say, told by the
    observation's own fields and the two findings. */
module C2paRuns {
  import opened JsonValue
  import Sorting
  import opened C2paNative
  import C2paObserved
  import C2paRebuild
  import C2paConsumed
  import opened C2paComparison
  import opened C2paConformance
  import opened C2paReport
  import opened C2paPipeline

  // ----- the two constructors -----

  /** A constructed finding carries what it was given; its axes are those of the report, or all not
      evaluated without one. */
  lemma ConstructExactly(tax: Taxonomy, side: Side, g: Given, report: Option<Json>)
    ensures var f := Construct(tax, side, g, report);
      && f.side == side && f.validator == g.validator && f.inputs == g.inputs && f.trustBasis == g.trustBasis
      && f.settings.digest == g.settingsDigest && Hermetic(f.settings)
      && f.clock.wallClock && !f.clock.callerPinnable
      && (report.Some? ==>
            && f.evaluation == Evaluated && f.axes == CanonicalAxes(tax, ParseNativeReport(report.value))
            && f.clock.anchored == Anchored(ParseNativeReport(report.value))
            && (forall s :: f.nativeState == Some(s) <==> Get(report.value, "validation_state") == Str(s)))
      && (report.None? ==>
            && f.evaluation == InputUnavailable && !f.clock.anchored && f.nativeState == None
            && |f.axes| == |AXIS_ORDER|
            && forall k :: 0 <= k < |AXIS_ORDER| ==> f.axes[k].axis == AXIS_ORDER[k] && f.axes[k].status == NotEvaluated)
  {
    hide CanonicalAxes, ParseNativeReport, Anchored, Get;
  }

  /** Which axis of a constructed finding has which place, and what the comparison finds there. */
  lemma AxisFound(tax: Taxonomy, side: Side, g: Given, report: Option<Json>, k: nat)
    requires k < |AXIS_ORDER|
    ensures var f := Construct(tax, side, g, report);
      |f.axes| == |AXIS_ORDER| && FindAxis(f.axes, AXIS_ORDER[k]) == Some(f.axes[k])
  {
    ConstructedSideOk(tax, side, g, report);
    var f := Construct(tax, side, g, report);
    hide CanonicalAxes, ParseNativeReport, FindAxis, Anchored, ExactAxes;
    assert |f.axes| == |AXIS_ORDER| && f.axes[k].axis == AXIS_ORDER[k] by { InOrder(tax, side, g, report, k); }
    SideNamed(f);
    FindIndexed(f.axes, k);
  }

  lemma InOrder(tax: Taxonomy, side: Side, g: Given, report: Option<Json>, k: nat)
    requires k < |AXIS_ORDER|
    ensures var f := Construct(tax, side, g, report); |f.axes| == |AXIS_ORDER| && f.axes[k].axis == AXIS_ORDER[k]
  {
    hide ParseNativeReport, AxisClass, AxisStatus, Anchored, AxisEntries;
  }

  lemma SideNamed(f: SideFinding)
    requires SideOk(f)
    ensures Sorting.NoRepeats(Names(f.axes))
  {
    ExactMeans(Names(f.axes));
  }

  // ----- the stages -----

  /** The claims of an observation match the retained report, where one was supplied. */
  predicate ClaimsMatch(run: Run, obs: Json) {
    run.retainedReport.Some? ==>
      C2paObserved.FindingsMismatch(Get(obs, "native_findings"), run.retainedReport.value, run.repr) == None
  }

  predicate Admitted(obs: Json) {
    obs.Obj? && (HasKey(obs.members, "native_findings") ==> C2paConsumed.SchemaFindings(Get(obs, "native_findings")))
  }

  /** How far a run comes, by the observation's own fields: matching needs the claims to match, conformance
      the schema to admit them, construction a mapping, and recomputation a validator. */
  lemma StagesExactly(tax: Taxonomy, m: Matrix, run: Run)
    requires MatrixOk(m)
    ensures var obs := if run.observation.Some? then run.observation.value else Null;
      var parsed := run.observation.Some?;
      var matched := parsed && run.otherMatches && ClaimsMatch(run, obs);
      var conforms := matched && run.otherConformance && Admitted(obs);
      && EndOf(tax, m, run, InputParse) == (if parsed then Completed else Refused)
      && EndOf(tax, m, run, InputCorrespondence)
         == (if !parsed then NotRun else if matched then Completed else Refused)
      && EndOf(tax, m, run, ProfileConformance)
         == (if !matched then NotRun else if conforms then Completed else Refused)
      && EndOf(tax, m, run, Construction)
         == (if !conforms then NotRun else if run.mapping.Some? then Completed else Refused)
      && EndOf(tax, m, run, Recomputation)
         == (if !conforms then NotRun
             else match run.recompute case Recomputed(_) => Completed case RecomputeRefused => Refused
                                      case NoValidator => StageNotEvaluated)
  {
    hide StageCompare, MatrixOk, C2paConsumed.SchemaFindings, C2paObserved.FindingsMismatch, C2paRebuild.Rebuild,
         FromNativeReport, Unavailable, DeclaredNotComparable;
    ObservedSideFaithful(tax, m, run);
    if run.mapping.None? { assert Constructed(tax, run).None?; }
  }

  /** The observed side of a run that constructs one: the mapping's own givens, the claimed validation
      state, and the axes of the rebuilt report, or none of it evaluated. */
  lemma ObservedExactly(tax: Taxonomy, run: Run)
    requires Constructed(tax, run).Some?
    ensures run.mapping.Some? && var g, o := run.mapping.value, Constructed(tax, run).value;
      && o.side == Observed && o.validator == g.given.validator && o.inputs == g.given.inputs
      && o.trustBasis == g.given.trustBasis && o.settings == g.settings
      && (o.evaluation == Evaluated <==> g.performed)
      && (g.performed && run.observation.Some? ==>
            forall s :: o.nativeState == Some(s) <==>
              Get(Get(run.observation.value, "native_report"), "native_validation_state") == Str(s))
  {
    hide CanonicalAxes, ParseNativeReport, Anchored, C2paRebuild.SeverityMap, C2paRebuild.AnyIngredient;
    var g := run.mapping.value;
    if g.performed {
      var claimed, state := Claimed(run), ClaimedState(run);
      var items := if claimed.Arr? then claimed.items else [];
      RebuiltState(items, state);
    }
  }

  lemma RebuiltState(items: seq<Json>, state: Json)
    ensures Get(C2paRebuild.RebuiltReport(items, state), "validation_state") == state
  {
    hide C2paRebuild.SeverityMap, C2paRebuild.AnyIngredient;
  }

  lemma WithSchema(m: Matrix, schema: seq<string>, r: Report)
    ensures CheckReport(m, schema, r) == [] <==> schema == [] && CheckReport(m, [], r) == []
  {
    var f := (msg: string) => [SchemaIssue(msg)];
    EachEmpty(schema, f);
    assert schema != [] ==> f(schema[0]) != [];
    hide Each, PresenceIssues, SidesIssues, ComparisonIssues;
    NoMessages();
  }

  lemma NoMessages()
    ensures Each([], (msg: string) => [SchemaIssue(msg)]) == []
  {}

  /** The comparison stage: not evaluated unless both sides were, refused over different bytes, and
      otherwise it yields a report, refused exactly when the schema or a cross-object fact speaks against
      it. */
  lemma ComparisonExactly(tax: Taxonomy, m: Matrix, run: Run, observed: Option<SideFinding>, rec: SideFinding)
    requires MatrixOk(m)
    ensures var (report, status) := StageCompare(tax, m, run, observed, rec);
      var both := observed.Some? && observed.value.evaluation == Evaluated && rec.evaluation == Evaluated;
      var bytes := both && observed.value.inputs.assetDigest == rec.inputs.assetDigest
                   && observed.value.inputs.manifestStoreDigest == rec.inputs.manifestStoreDigest;
      && (status == StageNotEvaluated <==> !both)
      && (report.Some? <==> bytes)
      && (bytes ==>
            && report.value.keys == run.keys && report.value.recomputed == Some(rec) && report.value.observed == observed
            && report.value.comparison.Some? && |report.value.comparison.value| == |AXIS_ORDER|
            && forall k :: 0 <= k < |AXIS_ORDER| ==>
                 report.value.comparison.value[k] == EntryFor(tax, m, observed.value, rec, AXIS_ORDER[k]))
      && (status == Completed <==> bytes && run.schema == [] && ReportOk(m, report.value))
      && (status == Refused <==> both && !(bytes && run.schema == [] && ReportOk(m, report.value)))
  {
    if observed.Some? {
      var report := BuildReport(tax, m, run.keys, rec, observed);
      WithSchema(m, run.schema, report);
      ConformantExactly(m, report);
    }
    hide CheckReport, ReportOk, MatrixOk, EntryFor;
  }

  // ----- the restriction and the views -----

  /** The observation names the trust material of the timestamp authority among its unavailable inputs. */
  predicate NamesTsaMaterial(obs: Json) {
    var inputs := Get(obs, "unavailable_inputs");
    inputs.Arr? && Obj([Member("input", Str("tsa_trust_material"))]) in Inputs(inputs.items)
  }

  /** The inputs alone, without their reasons. */
  function Inputs(items: seq<Json>): (r: seq<Json>)
    ensures |r| == |items|
    ensures forall k :: 0 <= k < |items| ==> r[k] == Obj([Member("input", Get(items[k], "input"))])
  {
    seq(|items|, k requires 0 <= k < |items| => Obj([Member("input", Get(items[k], "input"))]))
  }

  lemma TsaExactly(obs: Json)
    ensures TsaDisclosed(obs) <==> NamesTsaMaterial(obs)
  {
    hide Get;
    var inputs := Get(obs, "unavailable_inputs");
    if inputs.Arr? {
      var only, want := Inputs(inputs.items), Obj([Member("input", Str("tsa_trust_material"))]);
      if TsaDisclosed(obs) {
        var k :| 0 <= k < |inputs.items| && Get(inputs.items[k], "input") == Str("tsa_trust_material");
        assert only[k] == want;
      }
      if want in only {
        var k :| 0 <= k < |only| && only[k] == want;
        assert only[k].members[0] == want.members[0];
      }
    }
  }

  /** The scope comes from the declared posture alone, and each reason from its own field alone. */
  lemma RestrictionExactly(obs: Json)
    ensures var r := RestrictionOf(obs);
      var signer := Get(Get(obs, "signer_trust"), "trust_basis") == Str("unknown_not_captured");
      var wide := Get(obs, "later_comparison_posture") == Str("not_comparable");
      && (r.receiptWide <==> wide) && (r.timestampRestricted <==> NamesTsaMaterial(obs))
      && (SignerInputsUncaptured in r.reasons <==> signer)
      && (TsaMaterialUncaptured in r.reasons <==> NamesTsaMaterial(obs))
      && (DeclaredWithoutReason in r.reasons <==> wide && !signer && !NamesTsaMaterial(obs))
      && Sorting.NoRepeats(r.reasons)
  {
    TsaExactly(obs);
    hide TsaDisclosed, NamesTsaMaterial, Get;
  }

  /** How each compared axis of a run is shown: not at all compared under a receipt-wide restriction, nor
      on the timestamp axis when the authority's material is missing; otherwise as it was compared, an
      agreement of two sides that did not evaluate the axis being called one. */
  lemma ViewExactly(obs: Json, e: Entry)
    ensures var v := ViewOf(Some(RestrictionOf(obs)), e);
      var wide := Get(obs, "later_comparison_posture") == Str("not_comparable");
      var tsa := e.axis == Timestamp && NamesTsaMaterial(obs) && (e.state == Match || e.state == Mismatch);
      && v.entry == e
      && (v.state == RestrictedReceiptWide <==> wide)
      && (v.state == TimestampNotComparable <==> !wide && tsa)
      && (!wide && !tsa ==> v.state == AsCompared(e.state) && v.posture == e.posture)
      && (wide || tsa ==> v.posture == NoIntegrityInference)
      && (v.bothNotEvaluated <==> !wide && !tsa && e.state == Match && e.observedStatus == Some(NotEvaluated))
  {
    RestrictionExactly(obs);
    hide RestrictionOf, NamesTsaMaterial, Get;
  }
}
