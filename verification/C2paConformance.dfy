/** `c2pa_native.py`, `check_report`: the cross-object checks of a report. JSON Schema validation
    is foreign code; its messages are a parameter. */
module C2paConformance {
  import opened JsonValue
  import opened C2paNative
  import opened C2paComparison

  datatype Label = SideAxes(side: Side) | ComparisonAxes

  datatype Issue =
    | SchemaIssue(message: string)
    | AggregateForbidden(key: string)
    | RecomputationRequired
    | ComparisonMissing
    | ComparisonUngrounded
    | ComparabilityCoupling
    | SideLabel(side: Side)
    | AxisDuplicate(list: Label, axis: Axis)
    | AxisCoverage(list: Label)
    | AxisUnknown(list: Label)
    | NotHermetic(side: Side, flag: nat)
    | RevocationImplied(side: Side)
    | ClockSource(side: Side)
    | ClockPinnable(side: Side)
    | UnavailableAsFailure(side: Side, axis: Axis)
    | UnavailableWithState(side: Side)
    | ComparabilityNotRecomputed
    | UnknownState(axis: Axis)
    | ReasonIllegalForState(axis: Axis)
    | PostureIllegalForReason(axis: Axis)
    | IntegrityOnNondeterministicAxis(axis: Axis)
    | IntegrityWithoutComparableBasis(axis: Axis, basis: Predicate)
    | StatusNotGrounded(axis: Axis, side: Side)
    | MatchWithoutEquality(axis: Axis)
    | MismatchWithoutDifference(axis: Axis)

  const FORBIDDEN_AGGREGATE_KEYS: set<string> :=
    {"native_observation_matches_recomputation", "observation_matches_recomputation",
     "provenance_valid", "c2pa_verified", "verified"}

  function If(b: bool, i: Issue): seq<Issue> { if b then [i] else [] }

  /** The issues of each element, in order. */
  function Each<T>(xs: seq<T>, f: T -> seq<Issue>): seq<Issue> {
    if xs == [] then [] else Each(xs[..|xs| - 1], f) + f(xs[|xs| - 1])
  }

  lemma {:induction false} EachEmpty<T>(xs: seq<T>, f: T -> seq<Issue>)
    ensures Each(xs, f) == [] <==> forall i :: 0 <= i < |xs| ==> f(xs[i]) == []
  {
    if xs != [] {
      EachEmpty(xs[..|xs| - 1], f);
      assert forall i :: 0 <= i < |xs| - 1 ==> xs[..|xs| - 1][i] == xs[i];
    }
  }

  lemma {:induction false} EachSame<T, U>(xs: seq<T>, ys: seq<U>, f: T -> seq<Issue>, g: U -> seq<Issue>)
    requires |xs| == |ys| && forall i :: 0 <= i < |xs| ==> f(xs[i]) == g(ys[i])
    ensures Each(xs, f) == Each(ys, g)
  {
    if xs != [] {
      EachSame(xs[..|xs| - 1], ys[..|ys| - 1], f, g);
    }
  }

  // ----- the checks as functions -----

  function ForbiddenKey(k: string): seq<Issue> {
    If(k in FORBIDDEN_AGGREGATE_KEYS, AggregateForbidden(k))
  }

  function Duplicates(list: Label, axes: seq<Axis>): seq<Issue> {
    if axes == [] then []
    else
      var head, a := axes[..|axes| - 1], axes[|axes| - 1];
      Duplicates(list, head) + If(a in head, AxisDuplicate(list, a))
  }

  predicate CoversAxes(axes: seq<Axis>) { forall a :: a in AXIS_ORDER ==> a in axes }

  predicate KnownAxes(axes: seq<Axis>) { forall a :: a in axes ==> a in AXIS_ORDER }

  function AxisSetIssues(list: Label, axes: seq<Axis>): seq<Issue> {
    Duplicates(list, axes) + If(!CoversAxes(axes), AxisCoverage(list)) + If(!KnownAxes(axes), AxisUnknown(list))
  }

  function HermeticityIssues(side: Side, s: Settings): seq<Issue> {
    If(s.networkAccessPermitted, NotHermetic(side, 0)) + If(s.remoteResourceFetchAttempted, NotHermetic(side, 1))
    + If(s.trustListUriDereferenced, NotHermetic(side, 2)) + If(s.ocspFetchPermitted, NotHermetic(side, 3))
    + If(s.remoteManifestFetch, NotHermetic(side, 4)) + If(s.ocspFetch, NotHermetic(side, 5))
    + If(s.allowedNetworkHosts != [], NotHermetic(side, 6))
  }

  function RevocationIssue(side: Side, a: AxisFinding): seq<Issue> {
    If(a.axis == Revocation && a.status != NotEvaluated, RevocationImplied(side))
  }

  function UnavailableIssue(side: Side, a: AxisFinding): seq<Issue> {
    If(a.status !in {NotEvaluated, NotApplicable}, UnavailableAsFailure(side, a.axis))
  }

  function UnavailableIssues(side: Side, f: SideFinding): seq<Issue> {
    if f.evaluation == Evaluated then []
    else
      Each(f.axes, (a: AxisFinding) => UnavailableIssue(side, a))
      + If(f.nativeState.Some?, UnavailableWithState(side))
  }

  function Names(axes: seq<AxisFinding>): (r: seq<Axis>)
    ensures |r| == |axes| && forall i :: 0 <= i < |axes| ==> r[i] == axes[i].axis
  {
    seq(|axes|, i requires 0 <= i < |axes| => axes[i].axis)
  }

  function EntryNames(es: seq<Entry>): (r: seq<Axis>)
    ensures |r| == |es| && forall i :: 0 <= i < |es| ==> r[i] == es[i].axis
  {
    seq(|es|, i requires 0 <= i < |es| => es[i].axis)
  }

  function SideIssues(side: Side, f: SideFinding): seq<Issue> {
    AxisSetIssues(SideAxes(side), Names(f.axes))
    + HermeticityIssues(side, f.settings)
    + Each(f.axes, (a: AxisFinding) => RevocationIssue(side, a))
    + If(!f.clock.wallClock, ClockSource(side)) + If(f.clock.callerPinnable, ClockPinnable(side))
    + UnavailableIssues(side, f)
  }

  function BasisIssue(axis: Axis, c: Comparability, p: Predicate): seq<Issue> {
    If(!c.Holds(p), IntegrityWithoutComparableBasis(axis, p))
  }

  function IntegrityIssues(e: Entry, c: Comparability): seq<Issue> {
    if e.posture != PossibleSubstantiveDivergence then []
    else
      If(e.reproducibilityClass != BYTE_DETERMINISTIC, IntegrityOnNondeterministicAxis(e.axis))
      + Each(PREDICATES, (p: Predicate) => BasisIssue(e.axis, c, p))
  }

  function GroundingIssues(e: Entry, obs: Option<Status>, rec: Option<Status>): seq<Issue> {
    If(e.observedStatus != obs, StatusNotGrounded(e.axis, Observed))
    + If(e.recomputedStatus != rec, StatusNotGrounded(e.axis, Recomputed))
    + If(e.state == Match && obs != rec, MatchWithoutEquality(e.axis))
    + If(e.state == Mismatch && obs == rec, MismatchWithoutDifference(e.axis))
  }

  function EntryIssues(m: Matrix, o: SideFinding, r: SideFinding, e: Entry): seq<Issue> {
    if e.state !in m then [UnknownState(e.axis)]
    else if e.reason !in m[e.state] then [ReasonIllegalForState(e.axis)]
    else
      If(e.posture != m[e.state][e.reason], PostureIllegalForReason(e.axis))
      + IntegrityIssues(e, Comparable(o, r))
      + GroundingIssues(e, StatusOf(FindAxis(o.axes, e.axis)), StatusOf(FindAxis(r.axes, e.axis)))
  }

  function PresenceIssues(r: Report): seq<Issue> {
    If(r.observed.Some? && r.comparison.None?, ComparisonMissing)
    + If(r.comparison.Some? && r.observed.None?, ComparisonUngrounded)
    + If(r.comparability.Some? != r.observed.Some?, ComparabilityCoupling)
  }

  function SidesIssues(r: Report): seq<Issue>
    requires r.recomputed.Some?
  {
    If(r.recomputed.value.side != Recomputed, SideLabel(Recomputed))
    + If(r.observed.Some? && r.observed.value.side != Observed, SideLabel(Observed))
    + SideIssues(Recomputed, r.recomputed.value)
    + (if r.observed.Some? then SideIssues(Observed, r.observed.value) else [])
  }

  function ComparisonIssues(m: Matrix, r: Report): seq<Issue>
    requires r.recomputed.Some?
  {
    if r.comparison.None? || r.observed.None? then []
    else
      var o, rec := r.observed.value, r.recomputed.value;
      AxisSetIssues(ComparisonAxes, EntryNames(r.comparison.value))
      + If(r.comparability != Some(Comparable(o, rec)), ComparabilityNotRecomputed)
      + Each(r.comparison.value, (e: Entry) => EntryIssues(m, o, rec, e))
  }

  function CheckReport(m: Matrix, schema: seq<string>, r: Report): seq<Issue> {
    Each(schema, (msg: string) => [SchemaIssue(msg)]) + Each(r.keys, ForbiddenKey)
    + (if r.recomputed.None? then [RecomputationRequired]
       else PresenceIssues(r) + SidesIssues(r) + ComparisonIssues(m, r))
  }

  // ----- the checks, step by step -----

  lemma SeenAxes(seen: set<Axis>, axes: seq<Axis>)
    requires forall a :: a in seen <==> a in axes
    ensures (exists a :: a in AXIS_ORDER && a !in seen) <==> !CoversAxes(axes)
    ensures (exists a :: a in seen && a !in AXIS_ORDER) <==> !KnownAxes(axes)
  {
    hide AXIS_ORDER;
  }

  class ConformanceResult {
    var findings: seq<Issue>

    constructor ()
      ensures findings == []
    {
      findings := [];
    }

    method Fail(i: Issue)
      modifies this
      ensures findings == old(findings) + [i]
    {
      findings := findings + [i];
    }

    method FailIf(b: bool, i: Issue)
      modifies this
      ensures findings == old(findings) + If(b, i)
    {
      if b { Fail(i); }
    }

    /** Records after what has been recorded since `base`. */
    method Then(ghost base: seq<Issue>, ghost done: seq<Issue>, b: bool, i: Issue)
      requires findings == base + done
      modifies this
      ensures findings == base + (done + If(b, i))
    {
      assert base + done + [i] == base + (done + [i]);
      if b { Fail(i); }
    }

    method CheckAxisSet(list: Label, axes: seq<Axis>)
      modifies this
      ensures findings == old(findings) + AxisSetIssues(list, axes)
    {
      hide If, CoversAxes, KnownAxes;
      var seen := CheckDuplicates(list, axes);
      ghost var base := old(findings);
      var missing := exists a :: a in AXIS_ORDER && a !in seen;
      var extra := exists a :: a in seen && a !in AXIS_ORDER;
      SeenAxes(seen, axes);
      Then(base, Duplicates(list, axes), missing, AxisCoverage(list));
      Then(base, Duplicates(list, axes) + If(missing, AxisCoverage(list)), extra, AxisUnknown(list));
    }

    method CheckDuplicates(list: Label, axes: seq<Axis>) returns (seen: set<Axis>)
      modifies this
      ensures findings == old(findings) + Duplicates(list, axes)
      ensures forall a :: a in seen <==> a in axes
    {
      hide If;
      seen := {};
      for i := 0 to |axes|
        invariant findings == old(findings) + Duplicates(list, axes[..i])
        invariant forall a :: a in seen <==> a in axes[..i]
      {
        assert axes[..i + 1][..i] == axes[..i] && axes[..i + 1] == axes[..i] + [axes[i]];
        Then(old(findings), Duplicates(list, axes[..i]), axes[i] in seen, AxisDuplicate(list, axes[i]));
        seen := seen + {axes[i]};
      }
      assert axes[..|axes|] == axes;
    }

    method CheckHermeticity(side: Side, s: Settings)
      modifies this
      ensures findings == old(findings) + HermeticityIssues(side, s)
    {
      hide If;
      ghost var base := old(findings);
      ghost var d: seq<Issue> := [];
      assert base + d == base;
      Then(base, d, s.networkAccessPermitted, NotHermetic(side, 0));
      d := If(s.networkAccessPermitted, NotHermetic(side, 0));
      assert [] + d == d;
      Then(base, d, s.remoteResourceFetchAttempted, NotHermetic(side, 1));
      d := d + If(s.remoteResourceFetchAttempted, NotHermetic(side, 1));
      Then(base, d, s.trustListUriDereferenced, NotHermetic(side, 2));
      d := d + If(s.trustListUriDereferenced, NotHermetic(side, 2));
      Then(base, d, s.ocspFetchPermitted, NotHermetic(side, 3));
      d := d + If(s.ocspFetchPermitted, NotHermetic(side, 3));
      Then(base, d, s.remoteManifestFetch, NotHermetic(side, 4));
      d := d + If(s.remoteManifestFetch, NotHermetic(side, 4));
      Then(base, d, s.ocspFetch, NotHermetic(side, 5));
      d := d + If(s.ocspFetch, NotHermetic(side, 5));
      Then(base, d, s.allowedNetworkHosts != [], NotHermetic(side, 6));
    }

    method CheckRevocation(side: Side, axes: seq<AxisFinding>)
      modifies this
      ensures findings == old(findings) + Each(axes, (a: AxisFinding) => RevocationIssue(side, a))
    {
      var f := (a: AxisFinding) => RevocationIssue(side, a);
      for i := 0 to |axes|
        invariant findings == old(findings) + Each(axes[..i], f)
      {
        assert axes[..i + 1][..i] == axes[..i];
        if axes[i].axis != Revocation { continue; }
        FailIf(axes[i].status != NotEvaluated, RevocationImplied(side));
      }
      assert axes[..|axes|] == axes;
    }

    method CheckUnavailable(side: Side, f: SideFinding)
      modifies this
      ensures findings == old(findings) + UnavailableIssues(side, f)
    {
      if f.evaluation == Evaluated { return; }
      var g := (a: AxisFinding) => UnavailableIssue(side, a);
      for i := 0 to |f.axes|
        invariant findings == old(findings) + Each(f.axes[..i], g)
      {
        assert f.axes[..i + 1][..i] == f.axes[..i];
        FailIf(f.axes[i].status !in {NotEvaluated, NotApplicable}, UnavailableAsFailure(side, f.axes[i].axis));
      }
      assert f.axes[..|f.axes|] == f.axes;
      FailIf(f.nativeState.Some?, UnavailableWithState(side));
    }

    method CheckSide(side: Side, f: SideFinding)
      modifies this
      ensures findings == old(findings) + SideIssues(side, f)
    {
      hide AxisSetIssues, HermeticityIssues, UnavailableIssues, Each, RevocationIssue, If;
      CheckAxisSet(SideAxes(side), Names(f.axes));
      CheckHermeticity(side, f.settings);
      CheckRevocation(side, f.axes);
      FailIf(!f.clock.wallClock, ClockSource(side));
      FailIf(f.clock.callerPinnable, ClockPinnable(side));
      CheckUnavailable(side, f);
    }

    method CheckIntegrity(e: Entry, c: Comparability)
      modifies this
      ensures findings == old(findings) + IntegrityIssues(e, c)
    {
      if e.posture != PossibleSubstantiveDivergence { return; }
      FailIf(e.reproducibilityClass != BYTE_DETERMINISTIC, IntegrityOnNondeterministicAxis(e.axis));
      CheckBasis(e.axis, c, (p: Predicate) => BasisIssue(e.axis, c, p));
    }

    method CheckBasis(axis: Axis, c: Comparability, ghost f: Predicate -> seq<Issue>)
      requires forall p :: f(p) == BasisIssue(axis, c, p)
      modifies this
      ensures findings == old(findings) + Each(PREDICATES, f)
    {
      for i := 0 to |PREDICATES|
        invariant findings == old(findings) + Each(PREDICATES[..i], f)
      {
        hide PREDICATES;
        var p := PREDICATES[i];
        assert PREDICATES[..i + 1][..i] == PREDICATES[..i];
        assert f(p) == BasisIssue(axis, c, p);
        FailIf(!c.Holds(p), IntegrityWithoutComparableBasis(axis, p));
      }
      assert PREDICATES[..|PREDICATES|] == PREDICATES;
    }

    method CheckGrounding(e: Entry, obs: Option<Status>, rec: Option<Status>)
      modifies this
      ensures findings == old(findings) + GroundingIssues(e, obs, rec)
    {
      hide If;
      ghost var base := old(findings);
      ghost var d := If(e.observedStatus != obs, StatusNotGrounded(e.axis, Observed));
      assert base + [] == base && [] + d == d;
      Then(base, [], e.observedStatus != obs, StatusNotGrounded(e.axis, Observed));
      Then(base, d, e.recomputedStatus != rec, StatusNotGrounded(e.axis, Recomputed));
      d := d + If(e.recomputedStatus != rec, StatusNotGrounded(e.axis, Recomputed));
      Then(base, d, e.state == Match && obs != rec, MatchWithoutEquality(e.axis));
      d := d + If(e.state == Match && obs != rec, MatchWithoutEquality(e.axis));
      Then(base, d, e.state == Mismatch && obs == rec, MismatchWithoutDifference(e.axis));
    }

    method CheckEntry(m: Matrix, o: SideFinding, r: SideFinding, e: Entry)
      modifies this
      ensures findings == old(findings) + EntryIssues(m, o, r, e)
    {
      hide If, IntegrityIssues, Comparable, FindAxis, StatusOf, GroundingIssues;
      if e.state !in m {
        Fail(UnknownState(e.axis));
        return;
      }
      if e.reason !in m[e.state] {
        Fail(ReasonIllegalForState(e.axis));
        return;
      }
      FailIf(e.posture != m[e.state][e.reason], PostureIllegalForReason(e.axis));
      CheckIntegrity(e, Comparable(o, r));
      CheckGrounding(e, StatusOf(FindAxis(o.axes, e.axis)), StatusOf(FindAxis(r.axes, e.axis)));
    }

    method CheckComparison(m: Matrix, r: Report)
      requires r.recomputed.Some?
      modifies this
      ensures findings == old(findings) + ComparisonIssues(m, r)
    {
      hide AxisSetIssues, EntryIssues, Comparable;
      if r.comparison.None? || r.observed.None? { return; }
      var o, rec, es := r.observed.value, r.recomputed.value, r.comparison.value;
      CheckAxisSet(ComparisonAxes, EntryNames(es));
      FailIf(r.comparability != Some(Comparable(o, rec)), ComparabilityNotRecomputed);
      CheckEntries(m, o, rec, es, (e: Entry) => EntryIssues(m, o, rec, e));
    }

    method CheckEntries(m: Matrix, o: SideFinding, r: SideFinding, es: seq<Entry>, ghost f: Entry -> seq<Issue>)
      requires forall e :: f(e) == EntryIssues(m, o, r, e)
      modifies this
      ensures findings == old(findings) + Each(es, f)
    {
      hide EntryIssues;
      for i := 0 to |es|
        invariant findings == old(findings) + Each(es[..i], f)
      {
        var e := es[i];
        assert es[..i + 1][..i] == es[..i];
        assert f(e) == EntryIssues(m, o, r, e);
        CheckEntry(m, o, r, e);
      }
      assert es[..|es|] == es;
    }

    method CheckPresence(r: Report)
      modifies this
      ensures findings == old(findings) + PresenceIssues(r)
    {
      hide If;
      FailIf(r.observed.Some? && r.comparison.None?, ComparisonMissing);
      FailIf(r.comparison.Some? && r.observed.None?, ComparisonUngrounded);
      FailIf(r.comparability.Some? != r.observed.Some?, ComparabilityCoupling);
    }

    method CheckSides(r: Report)
      requires r.recomputed.Some?
      modifies this
      ensures findings == old(findings) + SidesIssues(r)
    {
      hide SideIssues, If;
      FailIf(r.recomputed.value.side != Recomputed, SideLabel(Recomputed));
      FailIf(r.observed.Some? && r.observed.value.side != Observed, SideLabel(Observed));
      CheckSide(Recomputed, r.recomputed.value);
      if r.observed.Some? { CheckSide(Observed, r.observed.value); }
    }

    method CheckSchema(schema: seq<string>)
      modifies this
      ensures findings == old(findings) + Each(schema, (msg: string) => [SchemaIssue(msg)])
    {
      var f := (msg: string) => [SchemaIssue(msg)];
      for i := 0 to |schema|
        invariant findings == old(findings) + Each(schema[..i], f)
      {
        assert schema[..i + 1][..i] == schema[..i];
        Fail(SchemaIssue(schema[i]));
      }
      assert schema[..|schema|] == schema;
    }

    method CheckKeys(keys: seq<string>)
      modifies this
      ensures findings == old(findings) + Each(keys, ForbiddenKey)
    {
      hide If;
      for i := 0 to |keys|
        invariant findings == old(findings) + Each(keys[..i], ForbiddenKey)
      {
        assert keys[..i + 1][..i] == keys[..i];
        FailIf(keys[i] in FORBIDDEN_AGGREGATE_KEYS, AggregateForbidden(keys[i]));
      }
      assert keys[..|keys|] == keys;
    }
  }

  method CheckReportLoop(m: Matrix, schema: seq<string>, r: Report) returns (result: ConformanceResult)
    ensures fresh(result) && result.findings == CheckReport(m, schema, r)
  {
    hide PresenceIssues, SidesIssues, ComparisonIssues, ForbiddenKey, If, Each;
    result := new ConformanceResult();
    result.CheckSchema(schema);
    result.CheckKeys(r.keys);
    if r.recomputed.None? {
      result.Fail(RecomputationRequired);
      return;
    }
    result.CheckPresence(r);
    result.CheckSides(r);
    result.CheckComparison(m, r);
  }
}
