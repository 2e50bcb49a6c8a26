/** What `check_report` establishes about any report, and what it finds in a report that
    `build_report` assembled from constructed findings. */
module C2paReport {
  import opened JsonValue
  import opened Sorting
  import opened C2paNative
  import opened C2paComparison
  import opened C2paConformance
  import C2paRebuild

  lemma IfEmpty(b: bool, i: Issue)
    ensures If(b, i) == [] <==> !b
  {}

  lemma {:induction false} NoDuplicates(list: Label, axes: seq<Axis>)
    ensures Duplicates(list, axes) == [] <==> NoRepeats(axes)
  {
    if axes != [] {
      var head, a := axes[..|axes| - 1], axes[|axes| - 1];
      NoDuplicates(list, head);
      assert forall i :: 0 <= i < |head| ==> head[i] == axes[i];
      if NoRepeats(axes) {
        assert a !in head;
      }
    }
  }

  // ----- what an empty list of findings means -----

  /** The list names every canonical axis once and nothing else. */
  ghost predicate ExactAxes(axes: seq<Axis>) {
    NoRepeats(axes) && CoversAxes(axes) && KnownAxes(axes)
  }

  predicate Hermetic(s: Settings) {
    && !s.networkAccessPermitted && !s.remoteResourceFetchAttempted && !s.trustListUriDereferenced
    && !s.ocspFetchPermitted && !s.remoteManifestFetch && !s.ocspFetch && s.allowedNetworkHosts == []
  }

  ghost predicate SideOk(f: SideFinding) {
    && ExactAxes(Names(f.axes))
    && Hermetic(f.settings)
    && (forall i :: 0 <= i < |f.axes| && f.axes[i].axis == Revocation ==> f.axes[i].status == NotEvaluated)
    && f.clock.wallClock && !f.clock.callerPinnable
    && (f.evaluation != Evaluated ==>
         && f.nativeState.None?
         && forall i :: 0 <= i < |f.axes| ==> f.axes[i].status in {NotEvaluated, NotApplicable})
  }

  ghost predicate EntryOk(m: Matrix, o: SideFinding, r: SideFinding, e: Entry) {
    && Legal(m, e.state, e.reason) && e.posture == m[e.state][e.reason]
    && (e.posture == PossibleSubstantiveDivergence ==>
         e.reproducibilityClass == BYTE_DETERMINISTIC && forall p :: p in PREDICATES ==> Comparable(o, r).Holds(p))
    && e.observedStatus == StatusOf(FindAxis(o.axes, e.axis))
    && e.recomputedStatus == StatusOf(FindAxis(r.axes, e.axis))
    && (e.state == Match ==> e.observedStatus == e.recomputedStatus)
    && (e.state == Mismatch ==> e.observedStatus != e.recomputedStatus)
  }

  ghost predicate ReportOk(m: Matrix, r: Report) {
    && (forall i :: 0 <= i < |r.keys| ==> r.keys[i] !in FORBIDDEN_AGGREGATE_KEYS)
    && r.recomputed.Some?
    && r.comparison.Some? == r.observed.Some? && r.comparability.Some? == r.observed.Some?
    && r.recomputed.value.side == Recomputed && SideOk(r.recomputed.value)
    && (r.observed.Some? ==>
         && r.observed.value.side == Observed && SideOk(r.observed.value)
         && ExactAxes(EntryNames(r.comparison.value))
         && r.comparability == Some(Comparable(r.observed.value, r.recomputed.value))
         && forall i :: 0 <= i < |r.comparison.value| ==>
              EntryOk(m, r.observed.value, r.recomputed.value, r.comparison.value[i]))
  }

  lemma AxisSetOk(list: Label, axes: seq<Axis>)
    ensures AxisSetIssues(list, axes) == [] <==> ExactAxes(axes)
  {
    hide CoversAxes, KnownAxes, Duplicates, NoRepeats;
    NoDuplicates(list, axes);
  }

  lemma HermeticityOk(side: Side, s: Settings)
    ensures HermeticityIssues(side, s) == [] <==> Hermetic(s)
  {
    hide If;
    IfEmpty(s.networkAccessPermitted, NotHermetic(side, 0));
    IfEmpty(s.remoteResourceFetchAttempted, NotHermetic(side, 1));
    IfEmpty(s.trustListUriDereferenced, NotHermetic(side, 2));
    IfEmpty(s.ocspFetchPermitted, NotHermetic(side, 3));
    IfEmpty(s.remoteManifestFetch, NotHermetic(side, 4));
    IfEmpty(s.ocspFetch, NotHermetic(side, 5));
    IfEmpty(s.allowedNetworkHosts != [], NotHermetic(side, 6));
  }

  lemma UnavailableOk(side: Side, f: SideFinding)
    ensures UnavailableIssues(side, f) == [] <==> (f.evaluation != Evaluated ==>
         && f.nativeState.None?
         && forall i :: 0 <= i < |f.axes| ==> f.axes[i].status in {NotEvaluated, NotApplicable})
  {
    EachEmpty(f.axes, (a: AxisFinding) => UnavailableIssue(side, a));
  }

  lemma SideChecked(side: Side, f: SideFinding)
    ensures SideIssues(side, f) == [] <==> SideOk(f)
  {
    hide AxisSetIssues, HermeticityIssues, UnavailableIssues, If, Each, ExactAxes, Hermetic;
    AxisSetOk(SideAxes(side), Names(f.axes));
    HermeticityOk(side, f.settings);
    UnavailableOk(side, f);
    RevocationOk(side, f.axes);
    IfEmpty(!f.clock.wallClock, ClockSource(side));
    IfEmpty(f.clock.callerPinnable, ClockPinnable(side));
  }

  lemma RevocationOk(side: Side, axes: seq<AxisFinding>)
    ensures Each(axes, (a: AxisFinding) => RevocationIssue(side, a)) == []
        <==> forall i :: 0 <= i < |axes| && axes[i].axis == Revocation ==> axes[i].status == NotEvaluated
  {
    EachEmpty(axes, (a: AxisFinding) => RevocationIssue(side, a));
  }

  lemma IntegrityOk(e: Entry, c: Comparability)
    ensures IntegrityIssues(e, c) == [] <==> (e.posture == PossibleSubstantiveDivergence ==>
      e.reproducibilityClass == BYTE_DETERMINISTIC && forall p :: p in PREDICATES ==> c.Holds(p))
  {
    EachEmpty(PREDICATES, (p: Predicate) => BasisIssue(e.axis, c, p));
  }

  lemma EntryChecked(m: Matrix, o: SideFinding, r: SideFinding, e: Entry)
    ensures EntryIssues(m, o, r, e) == [] <==> EntryOk(m, o, r, e)
  {
    hide IntegrityIssues, Comparable, FindAxis, StatusOf, PREDICATES;
    IntegrityOk(e, Comparable(o, r));
  }

  lemma ComparisonChecked(m: Matrix, r: Report)
    requires r.recomputed.Some? && r.observed.Some? && r.comparison.Some?
    ensures ComparisonIssues(m, r) == [] <==>
      && ExactAxes(EntryNames(r.comparison.value))
      && r.comparability == Some(Comparable(r.observed.value, r.recomputed.value))
      && forall i :: 0 <= i < |r.comparison.value| ==>
           EntryOk(m, r.observed.value, r.recomputed.value, r.comparison.value[i])
  {
    hide AxisSetIssues, EntryIssues, Comparable, ExactAxes, EntryOk, If, Each;
    var o, rec, es := r.observed.value, r.recomputed.value, r.comparison.value;
    AxisSetOk(ComparisonAxes, EntryNames(es));
    IfEmpty(r.comparability != Some(Comparable(o, rec)), ComparabilityNotRecomputed);
    var f := (e: Entry) => EntryIssues(m, o, rec, e);
    EachEmpty(es, f);
    forall i | 0 <= i < |es| ensures f(es[i]) == [] <==> EntryOk(m, o, rec, es[i]) {
      EntryChecked(m, o, rec, es[i]);
    }
  }

  /** A schema-valid report has no finding exactly when it states the cross-object facts: one
      recomputed side, a comparison exactly when there is an observation, both sides hermetic and
      complete, comparability as recomputed, and each compared axis legal, grounded and accused of
      divergence only where the class and every predicate allow it. */
  lemma ConformantExactly(m: Matrix, r: Report)
    ensures CheckReport(m, [], r) == [] <==> ReportOk(m, r)
  {
    hide ForbiddenKey, If, Each, SideOk, SideIssues, ComparisonIssues, EntryOk, ExactAxes, Comparable;
    EachEmpty(r.keys, ForbiddenKey);
    forall i | 0 <= i < |r.keys|
      ensures ForbiddenKey(r.keys[i]) == [] <==> r.keys[i] !in FORBIDDEN_AGGREGATE_KEYS
    {
      ForbiddenKeyOk(r.keys[i]);
    }
    EachEmpty([], (msg: string) => [SchemaIssue(msg)]);
    if r.recomputed.Some? {
      IfEmpty(r.observed.Some? && r.comparison.None?, ComparisonMissing);
      IfEmpty(r.comparison.Some? && r.observed.None?, ComparisonUngrounded);
      IfEmpty(r.comparability.Some? != r.observed.Some?, ComparabilityCoupling);
      IfEmpty(r.recomputed.value.side != Recomputed, SideLabel(Recomputed));
      IfEmpty(r.observed.Some? && r.observed.value.side != Observed, SideLabel(Observed));
      SideChecked(Recomputed, r.recomputed.value);
      if r.observed.Some? {
        SideChecked(Observed, r.observed.value);
        if r.comparison.Some? { ComparisonChecked(m, r); }
      } else {
        NoComparison(m, r);
      }
    }
  }

  lemma ForbiddenKeyOk(k: string)
    ensures ForbiddenKey(k) == [] <==> k !in FORBIDDEN_AGGREGATE_KEYS
  {}

  lemma NoComparison(m: Matrix, r: Report)
    requires r.recomputed.Some? && r.observed.None?
    ensures ComparisonIssues(m, r) == []
  {}

  // ----- reports built from constructed findings -----

  lemma {:induction false} FindIndexed(axes: seq<AxisFinding>, i: nat)
    requires i < |axes| && NoRepeats(Names(axes))
    ensures FindAxis(axes, axes[i].axis) == Some(axes[i])
  {
    var n := |axes| - 1;
    if i < n {
      assert Names(axes)[i] != Names(axes)[n];
      assert Names(axes[..n]) == Names(axes)[..n];
      FindIndexed(axes[..n], i);
    }
  }

  lemma CanonicalOrder(axes: seq<AxisFinding>)
    requires |axes| == |AXIS_ORDER| && forall i :: 0 <= i < |AXIS_ORDER| ==> axes[i].axis == AXIS_ORDER[i]
    ensures Names(axes) == AXIS_ORDER && ExactAxes(Names(axes))
  {
    assert Names(axes) == AXIS_ORDER;
    assert NoRepeats(AXIS_ORDER);
  }

  /** Either constructor makes a side that passes every per-side check. */
  lemma ConstructedSideOk(tax: Taxonomy, side: Side, g: Given, report: Option<Json>)
    ensures var f := Construct(tax, side, g, report);
      f.side == side && SideOk(f) && forall a :: a in AXIS_ORDER ==> FindAxis(f.axes, a).Some?
  {
    hide ParseNativeReport, AxisClass, AxisStatus, AxisEntries, Anchored, ExactAxes, FindAxis;
    var f := Construct(tax, side, g, report);
    CanonicalOrder(f.axes);
    assert NoRepeats(Names(f.axes)) by { ExactMeans(Names(f.axes)); }
    forall a | a in AXIS_ORDER ensures FindAxis(f.axes, a).Some? {
      var i :| 0 <= i < |AXIS_ORDER| && AXIS_ORDER[i] == a;
      FindIndexed(f.axes, i);
    }
  }

  lemma ExactMeans(axes: seq<Axis>)
    requires ExactAxes(axes)
    ensures NoRepeats(axes)
  {}

  /** What `check_report` says about one axis of a built report. */
  function AxisIntegrity(tax: Taxonomy, m: Matrix, o: SideFinding, r: SideFinding, axis: Axis): seq<Issue>
    requires MatrixOk(m)
  {
    var e := EntryFor(tax, m, o, r, axis);
    if e.state != Mismatch then []
    else
      If(e.reproducibilityClass != BYTE_DETERMINISTIC, IntegrityOnNondeterministicAxis(axis))
      + If(!Comparable(o, r).trust, IntegrityWithoutComparableBasis(axis, Trust))
  }

  lemma BuiltEntry(tax: Taxonomy, m: Matrix, o: SideFinding, r: SideFinding, axis: Axis)
    requires MatrixOk(m)
    ensures var e := EntryFor(tax, m, o, r, axis);
      && e.axis == axis
      && Legal(m, e.state, e.reason) && e.posture == m[e.state][e.reason]
      && (e.posture == PossibleSubstantiveDivergence <==> e.state == Mismatch)
      && e.observedStatus == StatusOf(FindAxis(o.axes, axis))
      && e.recomputedStatus == StatusOf(FindAxis(r.axes, axis))
      && (e.state == Match ==> e.observedStatus == e.recomputedStatus)
      && (e.state == Mismatch ==> e.observedStatus != e.recomputedStatus)
      && (e.state == Mismatch ==>
           var c := Comparable(o, r);
           c.identity && c.version && c.assetDigest && c.manifestStoreDigest && c.settings)
  {
    var oa, ra := FindAxis(o.axes, axis), FindAxis(r.axes, axis);
    EmittedLegal(m, axis, StatusOf(oa), StatusOf(ra), ClassFor(tax, axis, oa, ra), Comparable(o, r),
                 o.clock.anchored && r.clock.anchored);
  }

  lemma BasisIssues(axis: Axis, c: Comparability)
    requires c.identity && c.version && c.assetDigest && c.manifestStoreDigest && c.settings
    ensures Each(PREDICATES, (p: Predicate) => BasisIssue(axis, c, p))
         == If(!c.trust, IntegrityWithoutComparableBasis(axis, Trust))
  {
    var f := (p: Predicate) => BasisIssue(axis, c, p);
    EachEmpty(PREDICATES[..4], f);
    assert PREDICATES[..5][..4] == PREDICATES[..4] && PREDICATES[..6][..5] == PREDICATES[..5];
    assert PREDICATES[..6] == PREDICATES;
    assert Each(PREDICATES[..4], f) == [];
    assert Each(PREDICATES[..5], f) == f(Trust);
    assert f(SettingsDigest) == [];
  }

  lemma BuiltEntryIssues(tax: Taxonomy, m: Matrix, o: SideFinding, r: SideFinding, axis: Axis)
    requires MatrixOk(m)
    ensures EntryIssues(m, o, r, EntryFor(tax, m, o, r, axis)) == AxisIntegrity(tax, m, o, r, axis)
  {
    hide EntryFor, MatrixOk, FindAxis, StatusOf, Comparable, PREDICATES;
    BuiltEntry(tax, m, o, r, axis);
    if EntryFor(tax, m, o, r, axis).state == Mismatch { BasisIssues(axis, Comparable(o, r)); }
  }

  /** The findings on a report built from two constructed sides are those on caller-supplied keys
      and, axis by axis, those on a mismatch whose class is not byte deterministic or whose trust
      bases differ; every other check passes. */
  lemma BuiltReportIssues(tax: Taxonomy, m: Matrix, keys: seq<string>, go: Given, gr: Given,
                          observed: Option<Json>, recomputed: Option<Json>)
    requires MatrixOk(m)
    ensures var o, r := Construct(tax, Observed, go, observed), Construct(tax, Recomputed, gr, recomputed);
      CheckReport(m, [], BuildReport(tax, m, keys, r, Some(o)))
      == Each(keys, ForbiddenKey) + Each(AXIS_ORDER, (a: Axis) => AxisIntegrity(tax, m, o, r, a))
  {
    hide Construct, SideIssues, SideOk, EntryIssues, AxisIntegrity, EntryFor, AxisSetIssues, ForbiddenKey,
         Each, ExactAxes, MatrixOk, FindAxis, Comparable, AXIS_ORDER, If;
    var o, r := Construct(tax, Observed, go, observed), Construct(tax, Recomputed, gr, recomputed);
    var report := BuildReport(tax, m, keys, r, Some(o));
    ConstructedSideOk(tax, Observed, go, observed);
    ConstructedSideOk(tax, Recomputed, gr, recomputed);
    SideChecked(Observed, o);
    SideChecked(Recomputed, r);
    BuiltPresence(report);
    BuiltComparisonIssues(tax, m, o, r, report);
    EachEmpty([], (msg: string) => [SchemaIssue(msg)]);
  }

  lemma BuiltPresence(r: Report)
    requires r.recomputed.Some? && r.observed.Some? && r.comparison.Some? && r.comparability.Some?
    requires r.recomputed.value.side == Recomputed && r.observed.value.side == Observed
    requires SideIssues(Recomputed, r.recomputed.value) == [] && SideIssues(Observed, r.observed.value) == []
    ensures PresenceIssues(r) == [] && SidesIssues(r) == []
  {
    hide SideIssues;
  }

  lemma BuiltComparisonIssues(tax: Taxonomy, m: Matrix, o: SideFinding, r: SideFinding, report: Report)
    requires MatrixOk(m)
    requires report.recomputed == Some(r) && report.observed == Some(o)
    requires report.comparison == Some(Entries(tax, m, o, r, AXIS_ORDER))
    requires report.comparability == Some(Comparable(o, r))
    ensures ComparisonIssues(m, report) == Each(AXIS_ORDER, (a: Axis) => AxisIntegrity(tax, m, o, r, a))
  {
    hide EntryIssues, AxisIntegrity, AxisSetIssues, Comparable, Each, EntryFor, Entries, MatrixOk, FindAxis;
    var es := Entries(tax, m, o, r, AXIS_ORDER);
    var f, g := (e: Entry) => EntryIssues(m, o, r, e), (a: Axis) => AxisIntegrity(tax, m, o, r, a);
    forall i | 0 <= i < |es| ensures es[i].axis == AXIS_ORDER[i] && f(es[i]) == g(AXIS_ORDER[i]) {
      BuiltEntry(tax, m, o, r, AXIS_ORDER[i]);
      BuiltEntryIssues(tax, m, o, r, AXIS_ORDER[i]);
    }
    EachSame(es, AXIS_ORDER, f, g);
    assert EntryNames(es) == AXIS_ORDER;
    OrderExact();
    AxisSetOk(ComparisonAxes, EntryNames(es));
  }

  lemma OrderExact()
    ensures ExactAxes(AXIS_ORDER)
  {
    assert NoRepeats(AXIS_ORDER);
  }

  /** What a caller can see to on each axis before assembling the report: the findings do not diverge
      there, or they do on a byte-deterministic axis under one trust basis. */
  predicate Defensible(tax: Taxonomy, o: SideFinding, r: SideFinding, axis: Axis) {
    Diverges(tax, o, r, axis) ==>
      && ClassFor(tax, axis, FindAxis(o.axes, axis), FindAxis(r.axes, axis)) == BYTE_DETERMINISTIC
      && o.trustBasis == r.trustBasis
  }

  /** A built report is conformant exactly when no caller-supplied key is an aggregate and the two
      findings are defensible on every axis. */
  lemma BuiltReportConformant(tax: Taxonomy, m: Matrix, keys: seq<string>, go: Given, gr: Given,
                              observed: Option<Json>, recomputed: Option<Json>)
    requires MatrixOk(m)
    ensures var o, r := Construct(tax, Observed, go, observed), Construct(tax, Recomputed, gr, recomputed);
      CheckReport(m, [], BuildReport(tax, m, keys, r, Some(o))) == [] <==>
        && (forall i :: 0 <= i < |keys| ==> keys[i] !in FORBIDDEN_AGGREGATE_KEYS)
        && forall i :: 0 <= i < |AXIS_ORDER| ==> Defensible(tax, o, r, AXIS_ORDER[i])
  {
    hide Construct, EntryFor, MatrixOk, ForbiddenKey, CheckReport, BuildReport, If, Comparable, Defensible;
    var o, r := Construct(tax, Observed, go, observed), Construct(tax, Recomputed, gr, recomputed);
    BuiltReportIssues(tax, m, keys, go, gr, observed, recomputed);
    EachEmpty(keys, ForbiddenKey);
    forall i | 0 <= i < |keys|
      ensures ForbiddenKey(keys[i]) == [] <==> keys[i] !in FORBIDDEN_AGGREGATE_KEYS
    {
      ForbiddenKeyOk(keys[i]);
    }
    var g := (a: Axis) => AxisIntegrity(tax, m, o, r, a);
    EachEmpty(AXIS_ORDER, g);
    forall i | 0 <= i < |AXIS_ORDER|
      ensures g(AXIS_ORDER[i]) == [] <==> Defensible(tax, o, r, AXIS_ORDER[i])
    {
      DefensibleSilent(tax, m, o, r, AXIS_ORDER[i]);
    }
  }

  lemma DefensibleSilent(tax: Taxonomy, m: Matrix, o: SideFinding, r: SideFinding, axis: Axis)
    requires MatrixOk(m)
    ensures AxisIntegrity(tax, m, o, r, axis) == [] <==> Defensible(tax, o, r, axis)
  {
    IntegrityEmpty(tax, m, o, r, axis);
    MismatchIsDivergence(tax, m, o, r, axis);
    assert Comparable(o, r).trust <==> o.trustBasis == r.trustBasis;
    hide AxisIntegrity, EntryFor, MatrixOk, Diverges, ClassFor, FindAxis;
  }

  lemma IntegrityEmpty(tax: Taxonomy, m: Matrix, o: SideFinding, r: SideFinding, axis: Axis)
    requires MatrixOk(m)
    ensures AxisIntegrity(tax, m, o, r, axis) == [] <==>
      var e := EntryFor(tax, m, o, r, axis);
      e.state == Mismatch ==> e.reproducibilityClass == BYTE_DETERMINISTIC && Comparable(o, r).trust
  {
    hide EntryFor, MatrixOk, Comparable;
  }

  // ----- a report that fails its own check -----

  /** A native report without findings. */
  function EmptyReport(): Json { Obj([Member("validation_results", Obj([]))]) }

  lemma EmptyReportRead()
    ensures ParseNativeReport(EmptyReport()) == []
  {
    C2paRebuild.GetFirst(EmptyReport().members[0], [], "validation_results");
  }

  /** Two findings that differ in their trust bases alone, one with a failed ingredient and one
      without ingredients: the ingredient axis is compared as a mismatch, and the assembled report
      is told so by its own check. */
  lemma UnequalTrustFails(tax: Taxonomy, m: Matrix, keys: seq<string>, go: Given, gr: Given)
    requires MatrixOk(m) && tax.spec(Ingredient).reproducibilityClass == BYTE_DETERMINISTIC
    requires gr == go.(trustBasis := gr.trustBasis) && gr.trustBasis != go.trustBasis
    ensures var o := Construct(tax, Observed, go, Some(C2paRebuild.OneFailure(Str("5"))));
      var r := Construct(tax, Recomputed, gr, Some(EmptyReport()));
      CheckReport(m, [], BuildReport(tax, m, keys, r, Some(o))) != []
  {
    var failure := C2paRebuild.OneFailure(Str("5"));
    var o, r := Construct(tax, Observed, go, Some(failure)), Construct(tax, Recomputed, gr, Some(EmptyReport()));
    IngredientAxes(tax, go, gr);
    IngredientIndefensible(tax, o, r);
    BuiltReportConformant(tax, m, keys, go, gr, Some(failure), Some(EmptyReport()));
    assert AXIS_ORDER[7] == Ingredient;
    hide Construct, CheckReport, BuildReport, Defensible, MatrixOk, AXIS_ORDER;
  }

  lemma IngredientAxes(tax: Taxonomy, go: Given, gr: Given)
    ensures var o := Construct(tax, Observed, go, Some(C2paRebuild.OneFailure(Str("5"))));
      var r := Construct(tax, Recomputed, gr, Some(EmptyReport()));
      && StatusOf(FindAxis(o.axes, Ingredient)) == Some(Failed)
      && StatusOf(FindAxis(r.axes, Ingredient)) == Some(NotEvaluated)
      && FindAxis(r.axes, Ingredient).value.reproducibilityClass == tax.spec(Ingredient).reproducibilityClass
  {
    C2paRebuild.OneFailureRead();
    EmptyReportRead();
    hide ParseNativeReport;
    var e := NativeEntry("5", Failure, IngredientDeltas, None, None);
    assert [e][..0] == [] && [e][1..] == [];
    assert AxisEntries(tax, [e], Ingredient) == [e];
    assert AxisStatus([e], tax.spec(Ingredient).codes) == Failed by { assert [e][0].severity == Failure; }
    assert AxisEntries(tax, [], Ingredient) == [];
    assert AxisStatus([], tax.spec(Ingredient).codes) == NotEvaluated;
    var a, b := CanonicalAxes(tax, [e]), CanonicalAxes(tax, []);
    assert a[7] == AxisFindingOf(tax, [e], Ingredient) && b[7] == AxisFindingOf(tax, [], Ingredient);
    assert FindAxis(a, Ingredient) == Some(a[7]) && FindAxis(b, Ingredient) == Some(b[7]);
  }

  lemma IngredientIndefensible(tax: Taxonomy, o: SideFinding, r: SideFinding)
    requires StatusOf(FindAxis(o.axes, Ingredient)) == Some(Failed)
    requires StatusOf(FindAxis(r.axes, Ingredient)) == Some(NotEvaluated)
    requires FindAxis(r.axes, Ingredient).value.reproducibilityClass == BYTE_DETERMINISTIC
    requires o.validator == r.validator && o.inputs == r.inputs && o.settings.digest == r.settings.digest
    requires o.trustBasis != r.trustBasis
    ensures !Defensible(tax, o, r, Ingredient)
  {
    hide FindAxis;
    assert BYTE_DETERMINISTIC[0] == 'b' && POLICY_DEPENDENT[0] == 'p' && RESOURCE_DEPENDENT[0] == 'r';
    assert TIME_DEPENDENT[0] == 't';
  }
}
