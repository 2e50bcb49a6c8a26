/** `c2pa_native.py`, `check_report`: when each issue is raised, told by the report alone. */
module C2paIssues {
  import opened JsonValue
  import opened C2paNative
  import opened C2paComparison
  import opened C2paConformance

  // ----- what each issue says -----

  predicate Aggregate(k: string) {
    || k == "native_observation_matches_recomputation" || k == "observation_matches_recomputation"
    || k == "provenance_valid" || k == "c2pa_verified" || k == "verified"
  }

  function SideOf(r: Report, side: Side): Option<SideFinding> {
    match side case Recomputed => r.recomputed case Observed => r.observed
  }

  /** There is a comparison, and an observation behind it. */
  predicate Compared(r: Report) { r.recomputed.Some? && r.observed.Some? && r.comparison.Some? }

  /** The axes a list names, when it is in the report. */
  function Listed(r: Report, list: Label): Option<seq<Axis>> {
    match list
    case SideAxes(side) =>
      (match SideOf(r, side) case Some(f) => Some(Names(f.axes)) case None => None)
    case ComparisonAxes => if Compared(r) then Some(EntryNames(r.comparison.value)) else None
  }

  predicate NamedTwice(axes: seq<Axis>, a: Axis) {
    exists i, j :: 0 <= i < j < |axes| && axes[i] == a && axes[j] == a
  }

  /** One of the eight axes of the contract. */
  predicate Canonical(a: Axis) { !a.OtherAxis? }

  ghost predicate Omits(axes: seq<Axis>) { exists a :: Canonical(a) && a !in axes }

  predicate Adds(axes: seq<Axis>) { exists i :: 0 <= i < |axes| && !Canonical(axes[i]) }

  predicate FlagRaised(s: Settings, flag: nat) {
    match flag
    case 0 => s.networkAccessPermitted
    case 1 => s.remoteResourceFetchAttempted
    case 2 => s.trustListUriDereferenced
    case 3 => s.ocspFetchPermitted
    case 4 => s.remoteManifestFetch
    case 5 => s.ocspFetch
    case 6 => |s.allowedNetworkHosts| > 0
    case _ => false
  }

  predicate AxisWithout(f: SideFinding, a: Axis, s: Status, t: Status) {
    exists n :: 0 <= n < |f.axes| && f.axes[n].axis == a && f.axes[n].status != s && f.axes[n].status != t
  }

  /** Two sides agree on what the predicate names. */
  predicate Agree(o: SideFinding, r: SideFinding, p: Predicate) {
    match p
    case Identity => o.validator.implementation == r.validator.implementation
    case Version => o.validator.implementation == r.validator.implementation && o.validator.version == r.validator.version
    case AssetDigest => o.inputs.assetDigest == r.inputs.assetDigest
    case ManifestStoreDigest => o.inputs.manifestStoreDigest == r.inputs.manifestStoreDigest
    case Trust => o.trustBasis.mode == r.trustBasis.mode && o.trustBasis.materialDigest == r.trustBasis.materialDigest
    case SettingsDigest => o.settings.digest == r.settings.digest
  }

  predicate Declares(c: Comparability, p: Predicate) {
    match p
    case Identity => c.identity
    case Version => c.version
    case AssetDigest => c.assetDigest
    case ManifestStoreDigest => c.manifestStoreDigest
    case Trust => c.trust
    case SettingsDigest => c.settings
  }

  ghost predicate Recomputable(c: Option<Comparability>, o: SideFinding, r: SideFinding) {
    c.Some? && forall p :: Declares(c.value, p) <==> Agree(o, r, p)
  }

  function Recorded(f: SideFinding, a: Axis): Option<Status> { StatusOf(FindAxis(f.axes, a)) }

  /** The state and the reason are among those of the matrix. */
  predicate Lawful(m: Matrix, e: Entry) { e.state in m && e.reason in m[e.state] }

  predicate Accuses(m: Matrix, e: Entry) { Lawful(m, e) && e.posture == PossibleSubstantiveDivergence }

  /** The issue is raised by a comparison entry. */
  predicate EntryRaises(i: Issue, m: Matrix, o: SideFinding, r: SideFinding, e: Entry) {
    match i
    case UnknownState(a) => e.axis == a && e.state !in m
    case ReasonIllegalForState(a) => e.axis == a && e.state in m && e.reason !in m[e.state]
    case PostureIllegalForReason(a) => e.axis == a && Lawful(m, e) && e.posture != m[e.state][e.reason]
    case IntegrityOnNondeterministicAxis(a) =>
      e.axis == a && Accuses(m, e) && e.reproducibilityClass != "byte_deterministic"
    case IntegrityWithoutComparableBasis(a, p) => e.axis == a && Accuses(m, e) && !Agree(o, r, p)
    case StatusNotGrounded(a, side) =>
      && e.axis == a && Lawful(m, e)
      && (match side case Observed => e.observedStatus != Recorded(o, a) case Recomputed => e.recomputedStatus != Recorded(r, a))
    case MatchWithoutEquality(a) => e.axis == a && Lawful(m, e) && e.state == Match && Recorded(o, a) != Recorded(r, a)
    case MismatchWithoutDifference(a) =>
      e.axis == a && Lawful(m, e) && e.state == Mismatch && Recorded(o, a) == Recorded(r, a)
    case _ => false
  }

  ghost predicate SomeEntryRaises(i: Issue, m: Matrix, r: Report) {
    Compared(r) &&
    exists e :: e in r.comparison.value && EntryRaises(i, m, r.observed.value, r.recomputed.value, e)
  }

  /** The issue is raised by one of the two sides. */
  ghost predicate SideRaises(i: Issue, side: Side, f: SideFinding) {
    match i
    case NotHermetic(s, flag) => s == side && FlagRaised(f.settings, flag)
    case RevocationImplied(s) => s == side && AxisWithout(f, Revocation, NotEvaluated, NotEvaluated)
    case ClockSource(s) => s == side && !f.clock.wallClock
    case ClockPinnable(s) => s == side && f.clock.callerPinnable
    case UnavailableAsFailure(s, a) =>
      s == side && f.evaluation != Evaluated && AxisWithout(f, a, NotEvaluated, NotApplicable)
    case UnavailableWithState(s) => s == side && f.evaluation != Evaluated && f.nativeState.Some?
    case _ => false
  }

  ghost predicate ListRaises(i: Issue, list: Label, axes: seq<Axis>) {
    match i
    case AxisDuplicate(l, a) => l == list && NamedTwice(axes, a)
    case AxisCoverage(l) => l == list && Omits(axes)
    case AxisUnknown(l) => l == list && Adds(axes)
    case _ => false
  }

  /** The issue is raised by what is present and how it is labelled. */
  ghost predicate CouplingRaises(i: Issue, r: Report) {
    match i
    case ComparisonMissing => r.observed.Some? && r.comparison.None?
    case ComparisonUngrounded => r.observed.None? && r.comparison.Some?
    case ComparabilityCoupling => r.comparability.Some? != r.observed.Some?
    case SideLabel(side) => SideOf(r, side).Some? && SideOf(r, side).value.side != side
    case ComparabilityNotRecomputed =>
      Compared(r) && !Recomputable(r.comparability, r.observed.value, r.recomputed.value)
    case _ => false
  }

  /** When an issue is raised at all; without a recomputed side nothing but the schema and the keys is
      looked at. */
  ghost predicate Raised(i: Issue, m: Matrix, schema: seq<string>, r: Report) {
    || (i.SchemaIssue? && i.message in schema)
    || (i.AggregateForbidden? && i.key in r.keys && Aggregate(i.key))
    || (i.RecomputationRequired? && r.recomputed.None?)
    || (r.recomputed.Some? && CouplingRaises(i, r))
    || (r.recomputed.Some? && SideRaises(i, Recomputed, r.recomputed.value))
    || (r.recomputed.Some? && r.observed.Some? && SideRaises(i, Observed, r.observed.value))
    || (r.recomputed.Some? && Listed(r, SideAxes(Recomputed)).Some?
        && ListRaises(i, SideAxes(Recomputed), Listed(r, SideAxes(Recomputed)).value))
    || (r.recomputed.Some? && Listed(r, SideAxes(Observed)).Some?
        && ListRaises(i, SideAxes(Observed), Listed(r, SideAxes(Observed)).value))
    || (Listed(r, ComparisonAxes).Some? && ListRaises(i, ComparisonAxes, Listed(r, ComparisonAxes).value))
    || SomeEntryRaises(i, m, r)
  }

  // ----- the lists -----

  lemma {:induction false} EachHas<T(!new)>(xs: seq<T>, f: T -> seq<Issue>, i: Issue)
    ensures i in Each(xs, f) <==> exists x :: x in xs && i in f(x)
  {
    if xs != [] {
      var n := |xs| - 1;
      EachHas(xs[..n], f, i);
      assert forall x :: x in xs <==> x in xs[..n] || x == xs[n];
    }
  }

  lemma CanonicalListed(a: Axis)
    ensures a in AXIS_ORDER <==> Canonical(a)
  {
    match a {
      case OtherAxis(_) =>
      case _ =>
        assert AXIS_ORDER[0] in AXIS_ORDER && AXIS_ORDER[1] in AXIS_ORDER && AXIS_ORDER[2] in AXIS_ORDER
            && AXIS_ORDER[3] in AXIS_ORDER && AXIS_ORDER[4] in AXIS_ORDER && AXIS_ORDER[5] in AXIS_ORDER
            && AXIS_ORDER[6] in AXIS_ORDER && AXIS_ORDER[7] in AXIS_ORDER;
    }
  }

  lemma {:induction false} DuplicatesHave(list: Label, axes: seq<Axis>, i: Issue)
    ensures i in Duplicates(list, axes) <==> i.AxisDuplicate? && i.list == list && NamedTwice(axes, i.axis)
  {
    if axes != [] {
      var n := |axes| - 1;
      DuplicatesHave(list, axes[..n], i);
      if i.AxisDuplicate? { TwiceMore(axes, i.axis); }
      hide NamedTwice;
    }
  }

  lemma TwiceMore(axes: seq<Axis>, a: Axis)
    requires axes != []
    ensures var n := |axes| - 1;
      NamedTwice(axes, a) <==> NamedTwice(axes[..n], a) || (a == axes[n] && a in axes[..n])
  {
    var n := |axes| - 1;
    if NamedTwice(axes[..n], a) {
      var i, j :| 0 <= i < j < n && axes[..n][i] == a && axes[..n][j] == a;
      assert axes[i] == a && axes[j] == a;
    }
    if NamedTwice(axes, a) {
      var i, j :| 0 <= i < j < |axes| && axes[i] == a && axes[j] == a;
      assert axes[..n][i] == a;
      if j < n { assert axes[..n][j] == a; }
    }
    if a == axes[n] && a in axes[..n] {
      var i :| 0 <= i < n && axes[..n][i] == a;
      assert axes[i] == a && axes[n] == a;
    }
  }

  lemma AxisSetHas(list: Label, axes: seq<Axis>, i: Issue)
    ensures i in AxisSetIssues(list, axes) <==> ListRaises(i, list, axes)
  {
    DuplicatesHave(list, axes, i);
    forall a ensures a in AXIS_ORDER <==> Canonical(a) { CanonicalListed(a); }
    assert !CoversAxes(axes) <==> Omits(axes);
    assert !KnownAxes(axes) <==> Adds(axes);
    hide Duplicates, CoversAxes, KnownAxes, Omits, Adds, NamedTwice, Canonical;
  }

  // ----- a side -----

  lemma HermeticityHas(side: Side, s: Settings, i: Issue)
    ensures i in HermeticityIssues(side, s) <==> i.NotHermetic? && i.side == side && FlagRaised(s, i.flag)
  {
    SevenParts(i, If(s.networkAccessPermitted, NotHermetic(side, 0)), If(s.remoteResourceFetchAttempted, NotHermetic(side, 1)),
               If(s.trustListUriDereferenced, NotHermetic(side, 2)), If(s.ocspFetchPermitted, NotHermetic(side, 3)),
               If(s.remoteManifestFetch, NotHermetic(side, 4)), If(s.ocspFetch, NotHermetic(side, 5)),
               If(s.allowedNetworkHosts != [], NotHermetic(side, 6)));
  }

  lemma SevenParts(i: Issue, a: seq<Issue>, b: seq<Issue>, c: seq<Issue>, d: seq<Issue>, e: seq<Issue>, f: seq<Issue>,
                   g: seq<Issue>)
    ensures i in a + b + c + d + e + f + g <==> i in a || i in b || i in c || i in d || i in e || i in f || i in g
  {}

  lemma RevocationHas(side: Side, f: SideFinding, i: Issue)
    ensures i in Each(f.axes, (a: AxisFinding) => RevocationIssue(side, a)) <==>
      i == RevocationImplied(side) && AxisWithout(f, Revocation, NotEvaluated, NotEvaluated)
  {
    var g := (a: AxisFinding) => RevocationIssue(side, a);
    EachHas(f.axes, g, i);
    hide Each;
    if a :| a in f.axes && i in g(a) {
      var n :| 0 <= n < |f.axes| && f.axes[n] == a;
    }
    if i == RevocationImplied(side) && AxisWithout(f, Revocation, NotEvaluated, NotEvaluated) {
      var n :| 0 <= n < |f.axes| && f.axes[n].axis == Revocation && f.axes[n].status != NotEvaluated;
      assert i in g(f.axes[n]);
    }
  }

  lemma UnavailableHas(side: Side, f: SideFinding, i: Issue)
    ensures i in UnavailableIssues(side, f) <==>
      f.evaluation != Evaluated &&
      ((i == UnavailableWithState(side) && f.nativeState.Some?)
       || (i.UnavailableAsFailure? && i.side == side && AxisWithout(f, i.axis, NotEvaluated, NotApplicable)))
  {
    var g := (a: AxisFinding) => UnavailableIssue(side, a);
    EachHas(f.axes, g, i);
    UnavailableAxes(side, f, g, i);
    hide Each, AxisWithout;
  }

  lemma UnavailableAxes(side: Side, f: SideFinding, g: AxisFinding -> seq<Issue>, i: Issue)
    requires forall a :: g(a) == UnavailableIssue(side, a)
    ensures (exists a :: a in f.axes && i in g(a)) <==>
      i.UnavailableAsFailure? && i.side == side && AxisWithout(f, i.axis, NotEvaluated, NotApplicable)
  {
    if a :| a in f.axes && i in g(a) {
      var n :| 0 <= n < |f.axes| && f.axes[n] == a;
    }
    if i.UnavailableAsFailure? && i.side == side && AxisWithout(f, i.axis, NotEvaluated, NotApplicable) {
      var n :| 0 <= n < |f.axes| && f.axes[n].axis == i.axis && f.axes[n].status != NotEvaluated
               && f.axes[n].status != NotApplicable;
      assert i in g(f.axes[n]);
    }
  }

  lemma SideHas(side: Side, f: SideFinding, i: Issue)
    ensures i in SideIssues(side, f) <==> SideRaises(i, side, f) || ListRaises(i, SideAxes(side), Names(f.axes))
  {
    hide AxisWithout, FlagRaised, Each, AxisSetIssues, HermeticityIssues, UnavailableIssues, NamedTwice, Omits, Adds;
    AxisSetHas(SideAxes(side), Names(f.axes), i);
    HermeticityHas(side, f.settings, i);
    RevocationHas(side, f, i);
    UnavailableHas(side, f, i);
    SixParts(i, AxisSetIssues(SideAxes(side), Names(f.axes)), HermeticityIssues(side, f.settings),
             Each(f.axes, (a: AxisFinding) => RevocationIssue(side, a)),
             If(!f.clock.wallClock, ClockSource(side)), If(f.clock.callerPinnable, ClockPinnable(side)),
             UnavailableIssues(side, f));
  }

  lemma SixParts(i: Issue, a: seq<Issue>, b: seq<Issue>, c: seq<Issue>, d: seq<Issue>, e: seq<Issue>, f: seq<Issue>)
    ensures i in a + b + c + d + e + f <==> i in a || i in b || i in c || i in d || i in e || i in f
  {}

  // ----- an entry -----

  lemma ComparableHolds(o: SideFinding, r: SideFinding, p: Predicate)
    ensures Comparable(o, r).Holds(p) <==> Agree(o, r, p)
    ensures p in PREDICATES
  {
    assert PREDICATES[0] in PREDICATES && PREDICATES[1] in PREDICATES && PREDICATES[2] in PREDICATES
        && PREDICATES[3] in PREDICATES && PREDICATES[4] in PREDICATES && PREDICATES[5] in PREDICATES;
  }

  lemma BasisHas(axis: Axis, o: SideFinding, r: SideFinding, i: Issue)
    ensures i in Each(PREDICATES, (p: Predicate) => BasisIssue(axis, Comparable(o, r), p)) <==>
      i.IntegrityWithoutComparableBasis? && i.axis == axis && !Agree(o, r, i.basis)
  {
    var g := (p: Predicate) => BasisIssue(axis, Comparable(o, r), p);
    EachHas(PREDICATES, g, i);
    forall p ensures Comparable(o, r).Holds(p) <==> Agree(o, r, p)
             ensures p in PREDICATES
    {
      ComparableHolds(o, r, p);
    }
    hide Each, PREDICATES, Comparable, Agree;
    if i.IntegrityWithoutComparableBasis? && i.axis == axis && !Agree(o, r, i.basis) {
      assert i in g(i.basis);
    }
  }

  lemma IntegrityHas(e: Entry, o: SideFinding, r: SideFinding, i: Issue)
    ensures i in IntegrityIssues(e, Comparable(o, r)) <==>
      e.posture == PossibleSubstantiveDivergence &&
      ((i == IntegrityOnNondeterministicAxis(e.axis) && e.reproducibilityClass != "byte_deterministic")
       || (i.IntegrityWithoutComparableBasis? && i.axis == e.axis && !Agree(o, r, i.basis)))
  {
    BasisHas(e.axis, o, r, i);
    hide Each, Agree;
  }

  lemma GroundingHas(e: Entry, obs: Option<Status>, rec: Option<Status>, i: Issue)
    ensures i in GroundingIssues(e, obs, rec) <==>
      match i
      case StatusNotGrounded(a, side) =>
        a == e.axis && (match side case Observed => e.observedStatus != obs case Recomputed => e.recomputedStatus != rec)
      case MatchWithoutEquality(a) => a == e.axis && e.state == Match && obs != rec
      case MismatchWithoutDifference(a) => a == e.axis && e.state == Mismatch && obs == rec
      case _ => false
  {}

  lemma EntryHas(m: Matrix, o: SideFinding, r: SideFinding, e: Entry, i: Issue)
    ensures i in EntryIssues(m, o, r, e) <==> EntryRaises(i, m, o, r, e)
  {
    IntegrityHas(e, o, r, i);
    GroundingHas(e, Recorded(o, e.axis), Recorded(r, e.axis), i);
    hide FindAxis, Agree, IntegrityIssues, GroundingIssues, Comparable;
  }

  // ----- the report -----

  lemma RecomputableHas(c: Option<Comparability>, o: SideFinding, r: SideFinding)
    ensures c == Some(Comparable(o, r)) <==> Recomputable(c, o, r)
  {
    if Recomputable(c, o, r) {
      assert Declares(c.value, Identity) <==> Agree(o, r, Identity);
      assert Declares(c.value, Version) <==> Agree(o, r, Version);
      assert Declares(c.value, AssetDigest) <==> Agree(o, r, AssetDigest);
      assert Declares(c.value, ManifestStoreDigest) <==> Agree(o, r, ManifestStoreDigest);
      assert Declares(c.value, Trust) <==> Agree(o, r, Trust);
      assert Declares(c.value, SettingsDigest) <==> Agree(o, r, SettingsDigest);
    }
  }

  lemma ComparisonHas(m: Matrix, r: Report, i: Issue)
    requires r.recomputed.Some?
    ensures i in ComparisonIssues(m, r) <==>
      || (Compared(r) && ListRaises(i, ComparisonAxes, EntryNames(r.comparison.value)))
      || (i.ComparabilityNotRecomputed? && CouplingRaises(i, r))
      || SomeEntryRaises(i, m, r)
  {
    if Compared(r) {
      var o, rec := r.observed.value, r.recomputed.value;
      var g := (e: Entry) => EntryIssues(m, o, rec, e);
      AxisSetHas(ComparisonAxes, EntryNames(r.comparison.value), i);
      RecomputableHas(r.comparability, o, rec);
      EachHas(r.comparison.value, g, i);
      forall e ensures i in g(e) <==> EntryRaises(i, m, o, rec, e) { EntryHas(m, o, rec, e, i); }
      hide AxisSetIssues, Each, EntryRaises, Comparable, Recomputable, EntryIssues, ListRaises;
    }
  }

  lemma PresenceHas(r: Report, i: Issue)
    ensures i in PresenceIssues(r) <==>
      (i.ComparisonMissing? || i.ComparisonUngrounded? || i.ComparabilityCoupling?) && CouplingRaises(i, r)
  {
    hide Recomputable;
  }

  lemma SidesHave(r: Report, i: Issue)
    requires r.recomputed.Some?
    ensures i in SidesIssues(r) <==>
      || (i.SideLabel? && CouplingRaises(i, r))
      || SideRaises(i, Recomputed, r.recomputed.value)
      || ListRaises(i, SideAxes(Recomputed), Names(r.recomputed.value.axes))
      || (r.observed.Some? && SideRaises(i, Observed, r.observed.value))
      || (r.observed.Some? && ListRaises(i, SideAxes(Observed), Names(r.observed.value.axes)))
  {
    hide SideIssues, SideRaises, ListRaises, Recomputable;
    SideHas(Recomputed, r.recomputed.value, i);
    if r.observed.Some? { SideHas(Observed, r.observed.value, i); }
    FourParts(i, If(r.recomputed.value.side != Recomputed, SideLabel(Recomputed)),
              If(r.observed.Some? && r.observed.value.side != Observed, SideLabel(Observed)),
              SideIssues(Recomputed, r.recomputed.value),
              if r.observed.Some? then SideIssues(Observed, r.observed.value) else []);
    LabelHas(r, i);
  }

  lemma FourParts(i: Issue, a: seq<Issue>, b: seq<Issue>, c: seq<Issue>, d: seq<Issue>)
    ensures i in a + b + c + d <==> i in a || i in b || i in c || i in d
  {}

  lemma LabelHas(r: Report, i: Issue)
    requires r.recomputed.Some?
    ensures i.SideLabel? && CouplingRaises(i, r) <==>
      || i in If(r.recomputed.value.side != Recomputed, SideLabel(Recomputed))
      || i in If(r.observed.Some? && r.observed.value.side != Observed, SideLabel(Observed))
  {
    hide Recomputable;
  }

  lemma SchemaHas(schema: seq<string>, i: Issue)
    ensures i in Each(schema, (msg: string) => [SchemaIssue(msg)]) <==> i.SchemaIssue? && i.message in schema
  {
    var g := (msg: string) => [SchemaIssue(msg)];
    EachHas(schema, g, i);
    hide Each;
    if i.SchemaIssue? { assert i in g(i.message); }
  }

  lemma KeysHave(keys: seq<string>, i: Issue)
    ensures i in Each(keys, ForbiddenKey) <==> i.AggregateForbidden? && i.key in keys && Aggregate(i.key)
  {
    EachHas(keys, ForbiddenKey, i);
    forall k ensures i in ForbiddenKey(k) <==> i == AggregateForbidden(k) && Aggregate(k) {}
    hide Each, ForbiddenKey, Aggregate;
  }

  lemma CouplingApart(r: Report, i: Issue)
    ensures CouplingRaises(i, r) ==>
      i.ComparisonMissing? || i.ComparisonUngrounded? || i.ComparabilityCoupling? || i.SideLabel?
      || i.ComparabilityNotRecomputed?
  {}

  /** An issue is raised exactly when its condition on the report holds. */
  lemma IssueExactly(m: Matrix, schema: seq<string>, r: Report, i: Issue)
    ensures i in CheckReport(m, schema, r) <==> Raised(i, m, schema, r)
  {
    SchemaHas(schema, i);
    KeysHave(r.keys, i);
    hide Each, PresenceIssues, SidesIssues, ComparisonIssues, SideRaises, ListRaises, EntryRaises, Aggregate,
         Recomputable;
    if r.recomputed.Some? {
      PresenceHas(r, i);
      SidesHave(r, i);
      ComparisonHas(m, r, i);
      CouplingApart(r, i);
    }
  }
}
