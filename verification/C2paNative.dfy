/** `c2pa_native.py`: reading a native report into scoped entries and normalising those into one
    finding per axis. The comparison taxonomy is a parameter. */
module C2paNative {
  import opened JsonValue
  import opened Sorting

  /** The eight canonical axes, and any other name a report may carry. */
  datatype Axis =
    | ManifestStructure | AssetBinding | ClaimSignature | SignerTrust
    | SignerValidity | Timestamp | Revocation | Ingredient
    | OtherAxis(name: string)

  const AXIS_ORDER: seq<Axis> :=
    [ManifestStructure, AssetBinding, ClaimSignature, SignerTrust,
     SignerValidity, Timestamp, Revocation, Ingredient]

  datatype Severity = Success | Informational | Failure
  datatype Scope = ActiveManifest | IngredientDeltas

  function SeverityName(s: Severity): string {
    match s
    case Success => "success"
    case Informational => "informational"
    case Failure => "failure"
  }

  function ScopeName(s: Scope): string {
    match s
    case ActiveManifest => "activeManifest"
    case IngredientDeltas => "ingredientDeltas"
  }

  datatype NativeEntry = NativeEntry(
    code: string,
    severity: Severity,
    scope: Scope,
    url: Option<string>,
    ingredientUri: Option<string>)

  function TextOf(j: Json): Option<string> { if j.Str? then Some(j.s) else None }

  // ----- parse_native_report -----

  function BucketEntries(items: seq<Json>, sev: Severity, scope: Scope, uri: Option<string>): seq<NativeEntry> {
    if items == [] then []
    else
      var code := Get(items[0], "code");
      (if code.Str? then [NativeEntry(code.s, sev, scope, TextOf(Get(items[0], "url")), uri)] else [])
      + BucketEntries(items[1..], sev, scope, uri)
  }

  function Bucket(payload: Json, sev: Severity, scope: Scope, uri: Option<string>): seq<NativeEntry> {
    var bucket := Get(payload, SeverityName(sev));
    if bucket.Arr? then BucketEntries(bucket.items, sev, scope, uri) else []
  }

  function SeverityMapEntries(payload: Json, scope: Scope, uri: Option<string>): seq<NativeEntry> {
    if !payload.Obj? then []
    else Bucket(payload, Success, scope, uri) + Bucket(payload, Informational, scope, uri)
         + Bucket(payload, Failure, scope, uri)
  }

  function DeltaEntries(deltas: seq<Json>): seq<NativeEntry> {
    if deltas == [] then []
    else
      SeverityMapEntries(Get(deltas[0], "validationDeltas"), IngredientDeltas,
                         TextOf(Get(deltas[0], "ingredientAssertionURI")))
      + DeltaEntries(deltas[1..])
  }

  /** Anything of another shape than the scoped object and list is skipped. */
  function ParseNativeReport(report: Json): seq<NativeEntry> {
    var results := Get(report, "validation_results");
    var deltas := Get(results, "ingredientDeltas");
    SeverityMapEntries(Get(results, "activeManifest"), ActiveManifest, None)
    + (if deltas.Arr? then DeltaEntries(deltas.items) else [])
  }

  // ----- the taxonomy -----

  const BYTE_DETERMINISTIC := "byte_deterministic"
  const POLICY_DEPENDENT := "policy_dependent"
  const VERSION_DEPENDENT := "validator_version_dependent"
  const TIME_DEPENDENT := "time_dependent"
  const RESOURCE_DEPENDENT := "resource_dependent"

  /** One axis of the taxonomy: the native codes it maps with their declared readings, and its
      reproducibility class. */
  datatype AxisSpec = AxisSpec(
    codes: map<string, string>,
    reproducibilityClass: string,
    contributing: seq<string>,
    inherits: bool)

  /** `order` is the order of the axes in the file. */
  datatype Taxonomy = Taxonomy(order: seq<Axis>, spec: Axis -> AxisSpec) {
    /** `axis_for_code`: the first axis that maps the code. */
    function AxisForCode(code: string): Option<Axis> { FirstAxis(order, code) }

    function FirstAxis(axes: seq<Axis>, code: string): Option<Axis> {
      if axes == [] then None
      else if code in spec(axes[0]).codes then Some(axes[0])
      else FirstAxis(axes[1..], code)
    }
  }

  // ----- statuses and classes -----

  datatype Status = Satisfied | Failed | Indeterminate | NotEvaluated | NotApplicable

  predicate HasSeverity(es: seq<NativeEntry>, s: Severity) {
    exists i :: 0 <= i < |es| && es[i].severity == s
  }

  predicate DeclaresIndeterminate(es: seq<NativeEntry>, codes: map<string, string>) {
    exists i :: 0 <= i < |es| && es[i].code in codes && codes[es[i].code] == "indeterminate"
  }

  function AxisStatus(es: seq<NativeEntry>, codes: map<string, string>): Status {
    if es == [] then NotEvaluated
    else if HasSeverity(es, Failure) then Failed
    else if HasSeverity(es, Success) then
      if DeclaresIndeterminate(es, codes) then Indeterminate else Satisfied
    else if DeclaresIndeterminate(es, codes)
         || (forall i :: 0 <= i < |es| ==> es[i].severity == Informational) then Indeterminate
    else NotEvaluated
  }

  function Strength(c: string): nat {
    if c == POLICY_DEPENDENT then 1
    else if c == VERSION_DEPENDENT then 2
    else if c == TIME_DEPENDENT then 3
    else if c == RESOURCE_DEPENDENT then 4
    else 0
  }

  /** `max(classes, key=strength)`: the first among the weakest. */
  function Weakest(classes: seq<string>): string
    requires classes != []
  {
    if |classes| == 1 then classes[0]
    else
      var w := Weakest(classes[..|classes| - 1]);
      var c := classes[|classes| - 1];
      if Strength(c) > Strength(w) then c else w
  }

  function Dedup(xs: seq<string>): (r: seq<string>)
    ensures forall x :: x in r <==> x in xs
    ensures NoRepeats(r)
    ensures xs != [] ==> r != []
  {
    if xs == [] then []
    else
      var r := Dedup(xs[..|xs| - 1]);
      if xs[|xs| - 1] in r then r else r + [xs[|xs| - 1]]
  }

  /** Classes of the axes that map the entries' codes, other than `axis` itself. */
  function Inherited(tax: Taxonomy, axis: Axis, es: seq<NativeEntry>): (r: seq<string>)
    ensures forall c :: c in r <==> exists i :: 0 <= i < |es| && InheritsFrom(tax, axis, es[i].code, c)
  {
    if es == [] then []
    else
      var e := es[|es| - 1];
      var r := Inherited(tax, axis, es[..|es| - 1]);
      var hit := tax.AxisForCode(e.code);
      if hit.Some? && hit.value != axis then r + [tax.spec(hit.value).reproducibilityClass] else r
  }

  predicate InheritsFrom(tax: Taxonomy, axis: Axis, code: string, c: string) {
    var hit := tax.AxisForCode(code);
    hit.Some? && hit.value != axis && tax.spec(hit.value).reproducibilityClass == c
  }

  /** The reproducibility class of an axis, and the classes that contribute to it. */
  function AxisClass(tax: Taxonomy, axis: Axis, es: seq<NativeEntry>): (string, seq<string>) {
    var spec := tax.spec(axis);
    var contributing := if spec.contributing == [] then [spec.reproducibilityClass] else spec.contributing;
    var inherited := if spec.inherits then Inherited(tax, axis, es) else [];
    if inherited == [] then (spec.reproducibilityClass, contributing)
    else
      var all := Sort(Dedup(contributing + inherited), StrLe);
      assert |all| == |Dedup(contributing + inherited)|;
      (Weakest(all), all)
  }

  // ----- the canonical finding -----

  datatype AxisFinding = AxisFinding(
    axis: Axis,
    status: Status,
    reproducibilityClass: string,
    contributing: seq<string>,
    nativeFindings: seq<NativeEntry>)

  /** The axis an entry is filed under. An ingredient-scoped entry belongs to the ingredient axis
      whatever its code. */
  function FiledUnder(tax: Taxonomy, e: NativeEntry): Option<Axis> {
    if e.scope == IngredientDeltas then Some(Ingredient) else tax.AxisForCode(e.code)
  }

  function AxisEntries(tax: Taxonomy, es: seq<NativeEntry>, axis: Axis): (r: seq<NativeEntry>)
    ensures forall e :: e in r <==> e in es && FiledUnder(tax, e) == Some(axis)
  {
    if es == [] then []
    else
      var r := AxisEntries(tax, es[..|es| - 1], axis);
      assert es == es[..|es| - 1] + [es[|es| - 1]];
      if FiledUnder(tax, es[|es| - 1]) == Some(axis) then r + [es[|es| - 1]] else r
  }

  function Unmapped(tax: Taxonomy, es: seq<NativeEntry>): seq<NativeEntry> {
    if es == [] then []
    else
      var r := Unmapped(tax, es[..|es| - 1]);
      if FiledUnder(tax, es[|es| - 1]) == None then r + [es[|es| - 1]] else r
  }

  function AxisFindingOf(tax: Taxonomy, es: seq<NativeEntry>, axis: Axis): AxisFinding {
    var mine := AxisEntries(tax, es, axis);
    var spec := tax.spec(axis);
    if axis == Revocation then
      AxisFinding(axis, NotEvaluated, spec.reproducibilityClass, spec.contributing, mine)
    else
      var (primary, contributing) := AxisClass(tax, axis, mine);
      AxisFinding(axis, AxisStatus(mine, spec.codes), primary, contributing, mine)
  }

  function AxesOf(tax: Taxonomy, es: seq<NativeEntry>, order: seq<Axis>): (r: seq<AxisFinding>)
    ensures |r| == |order|
    ensures forall i :: 0 <= i < |order| ==> r[i] == AxisFindingOf(tax, es, order[i])
  {
    if order == [] then [] else [AxisFindingOf(tax, es, order[0])] + AxesOf(tax, es, order[1..])
  }

  function CanonicalAxes(tax: Taxonomy, es: seq<NativeEntry>): seq<AxisFinding> {
    AxesOf(tax, es, AXIS_ORDER)
  }

  /** A trusted timestamp anchors the validation clock. */
  predicate Anchored(es: seq<NativeEntry>) {
    exists i :: 0 <= i < |es| && es[i].code == "timeStamp.trusted" && es[i].severity == Success
  }

  /** Files each entry under its axis. The taxonomy maps codes to canonical axes only, as the
      index into `by_axis` demands. */
  method FileEntries(tax: Taxonomy, es: seq<NativeEntry>)
    returns (byAxis: map<Axis, seq<NativeEntry>>, unmapped: seq<NativeEntry>)
    requires forall a :: a in tax.order ==> a in AXIS_ORDER
    ensures forall a :: a in byAxis <==> a in AXIS_ORDER
    ensures forall a :: a in AXIS_ORDER ==> byAxis[a] == AxisEntries(tax, es, a)
    ensures unmapped == Unmapped(tax, es)
  {
    byAxis := map a | a in AXIS_ORDER :: [];
    unmapped := [];
    for i := 0 to |es|
      invariant forall a :: a in byAxis <==> a in AXIS_ORDER
      invariant forall a :: a in AXIS_ORDER ==> byAxis[a] == AxisEntries(tax, es[..i], a)
      invariant unmapped == Unmapped(tax, es[..i])
    {
      var entry := es[i];
      assert es[..i + 1][..i] == es[..i] && es[..i + 1][i] == entry;
      if entry.scope == IngredientDeltas {
        byAxis := byAxis[Ingredient := byAxis[Ingredient] + [entry]];
        continue;
      }
      var hit := tax.AxisForCode(entry.code);
      if hit.None? {
        unmapped := unmapped + [entry];
        continue;
      }
      HitInOrder(tax, tax.order, entry.code);
      byAxis := byAxis[hit.value := byAxis[hit.value] + [entry]];
    }
    assert es[..|es|] == es;
  }

  /** One finding per axis of `order`, each from the entries filed under it. */
  method AxesInOrder(tax: Taxonomy, order: seq<Axis>, byAxis: map<Axis, seq<NativeEntry>>,
                     ghost es: seq<NativeEntry>) returns (axes: seq<AxisFinding>)
    requires forall a :: a in order ==> a in byAxis && byAxis[a] == AxisEntries(tax, es, a)
    ensures axes == AxesOf(tax, es, order)
  {
    hide AxisClass, AxisStatus, AxisEntries, AxesOf;
    axes := [];
    for i := 0 to |order|
      invariant axes == AxesOf(tax, es, order)[..i]
    {
      var axis := order[i];
      assert axis in order;
      var mine := byAxis[axis];
      var spec := tax.spec(axis);
      if axis == Revocation {
        axes := axes + [AxisFinding(axis, NotEvaluated, spec.reproducibilityClass, spec.contributing, mine)];
        continue;
      }
      var (primary, contributing) := AxisClass(tax, axis, mine);
      axes := axes + [AxisFinding(axis, AxisStatus(mine, spec.codes), primary, contributing, mine)];
    }
  }

  /** The axes in canonical order, and the entries no axis maps. */
  method BuildAxes(tax: Taxonomy, es: seq<NativeEntry>)
    returns (axes: seq<AxisFinding>, unmapped: seq<NativeEntry>)
    requires forall a :: a in tax.order ==> a in AXIS_ORDER
    ensures axes == CanonicalAxes(tax, es) && unmapped == Unmapped(tax, es)
  {
    hide AxesOf, AxisEntries, Unmapped;
    var byAxis, other := FileEntries(tax, es);
    unmapped := other;
    axes := AxesInOrder(tax, AXIS_ORDER, byAxis, es);
  }

  lemma {:induction false} HitInOrder(tax: Taxonomy, axes: seq<Axis>, code: string)
    ensures tax.FirstAxis(axes, code).Some? ==> tax.FirstAxis(axes, code).value in axes
  {
    if axes != [] { HitInOrder(tax, axes[1..], code); }
  }

  // ----- what the normalisation depends on -----

  /** Both lists hold the same findings, counting neither repetition, order nor uris. */
  ghost predicate SameFindings(es: seq<NativeEntry>, fs: seq<NativeEntry>) {
    forall scope, sev, code :: Occurs(es, scope, sev, code) <==> Occurs(fs, scope, sev, code)
  }

  predicate Occurs(es: seq<NativeEntry>, scope: Scope, sev: Severity, code: string) {
    exists i :: 0 <= i < |es| && es[i].scope == scope && es[i].severity == sev && es[i].code == code
  }

  /** Every entry of one list has a counterpart in the other. */
  ghost predicate Covered(es: seq<NativeEntry>, fs: seq<NativeEntry>) {
    forall i :: 0 <= i < |es| ==> Occurs(fs, es[i].scope, es[i].severity, es[i].code)
  }

  lemma FiledCovered(tax: Taxonomy, es: seq<NativeEntry>, fs: seq<NativeEntry>, axis: Axis)
    requires Covered(es, fs)
    ensures Covered(AxisEntries(tax, es, axis), AxisEntries(tax, fs, axis))
  {
    var a, b := AxisEntries(tax, es, axis), AxisEntries(tax, fs, axis);
    forall i | 0 <= i < |a| ensures Occurs(b, a[i].scope, a[i].severity, a[i].code) {
      var e := a[i];
      assert e in es;
      var k :| 0 <= k < |es| && es[k] == e;
      assert Occurs(fs, e.scope, e.severity, e.code);
      var j :| 0 <= j < |fs| && fs[j].scope == e.scope && fs[j].severity == e.severity && fs[j].code == e.code;
      assert fs[j] in b;
      var q :| 0 <= q < |b| && b[q] == fs[j];
    }
  }

  lemma StatusFromCover(es: seq<NativeEntry>, fs: seq<NativeEntry>, codes: map<string, string>)
    requires Covered(es, fs) && Covered(fs, es)
    ensures AxisStatus(es, codes) == AxisStatus(fs, codes)
  {
    StatusParts(es, fs, codes);
    StatusParts(fs, es, codes);
  }

  lemma StatusParts(es: seq<NativeEntry>, fs: seq<NativeEntry>, codes: map<string, string>)
    requires Covered(es, fs)
    ensures es != [] ==> fs != []
    ensures forall s :: HasSeverity(es, s) ==> HasSeverity(fs, s)
    ensures DeclaresIndeterminate(es, codes) ==> DeclaresIndeterminate(fs, codes)
    ensures (forall i :: 0 <= i < |fs| ==> fs[i].severity == Informational)
        ==> (forall i :: 0 <= i < |es| ==> es[i].severity == Informational)
  {
    if es != [] { assert Occurs(fs, es[0].scope, es[0].severity, es[0].code); }
    forall s | HasSeverity(es, s) ensures HasSeverity(fs, s) {
      var i :| 0 <= i < |es| && es[i].severity == s;
      assert Occurs(fs, es[i].scope, es[i].severity, es[i].code);
    }
    if DeclaresIndeterminate(es, codes) {
      var i :| 0 <= i < |es| && es[i].code in codes && codes[es[i].code] == "indeterminate";
      assert Occurs(fs, es[i].scope, es[i].severity, es[i].code);
    }
    forall i | 0 <= i < |es|
      ensures (forall j :: 0 <= j < |fs| ==> fs[j].severity == Informational) ==> es[i].severity == Informational
    {
      assert Occurs(fs, es[i].scope, es[i].severity, es[i].code);
    }
  }

  lemma ClassFromCover(tax: Taxonomy, axis: Axis, es: seq<NativeEntry>, fs: seq<NativeEntry>)
    requires Covered(es, fs) && Covered(fs, es)
    ensures AxisClass(tax, axis, es) == AxisClass(tax, axis, fs)
  {
    InheritedCover(tax, axis, es, fs);
    InheritedCover(tax, axis, fs, es);
    var a, b := Inherited(tax, axis, es), Inherited(tax, axis, fs);
    SameEmptiness(a, b);
    var spec := tax.spec(axis);
    var contributing := if spec.contributing == [] then [spec.reproducibilityClass] else spec.contributing;
    SortedDedup(contributing + a, contributing + b);
  }

  lemma SameEmptiness(a: seq<string>, b: seq<string>)
    requires forall x :: x in a <==> x in b
    ensures a == [] <==> b == []
  {
    if a != [] { assert a[0] in b; }
    if b != [] { assert b[0] in a; }
  }

  lemma InheritedCover(tax: Taxonomy, axis: Axis, es: seq<NativeEntry>, fs: seq<NativeEntry>)
    requires Covered(es, fs)
    ensures forall c :: c in Inherited(tax, axis, es) ==> c in Inherited(tax, axis, fs)
  {
    forall c | c in Inherited(tax, axis, es) ensures c in Inherited(tax, axis, fs) {
      var i :| 0 <= i < |es| && InheritsFrom(tax, axis, es[i].code, c);
      assert Occurs(fs, es[i].scope, es[i].severity, es[i].code);
      var j :| 0 <= j < |fs| && fs[j].code == es[i].code;
      assert InheritsFrom(tax, axis, fs[j].code, c);
    }
  }

  lemma SortedDedup(xs: seq<string>, ys: seq<string>)
    requires forall x :: x in xs <==> x in ys
    ensures Sort(Dedup(xs), StrLe) == Sort(Dedup(ys), StrLe)
  {
    var a, b := Dedup(xs), Dedup(ys);
    StrLeByKeyIsPreorder((s: string) => s, StrLe);
    NoRepeatsCount(a);
    NoRepeatsCount(b);
    forall x ensures multiset(a)[x] == multiset(b)[x] {
      assert x in a <==> x in multiset(a);
      assert x in b <==> x in multiset(b);
    }
    assert multiset(a) == multiset(b);
    forall x, y | x in a && y in a && StrLe(x, y) && StrLe(y, x) ensures x == y { StrLeAntisymmetric(x, y); }
    SortForgetsOrder(a, b, StrLe);
  }

  /** Statuses, classes and the clock anchor depend on which findings occur, not on how often, in
      which order, or with which uris. */
  lemma AxesDependOnFindings(tax: Taxonomy, es: seq<NativeEntry>, fs: seq<NativeEntry>)
    requires SameFindings(es, fs)
    ensures var a, b := CanonicalAxes(tax, es), CanonicalAxes(tax, fs);
      forall i :: 0 <= i < |AXIS_ORDER| ==>
        && a[i].axis == b[i].axis && a[i].status == b[i].status
        && a[i].reproducibilityClass == b[i].reproducibilityClass && a[i].contributing == b[i].contributing
    ensures Anchored(es) == Anchored(fs)
  {
    assert Covered(es, fs) by { Covers(es, fs); }
    assert Covered(fs, es) by { Covers(fs, es); }
    forall i | 0 <= i < |AXIS_ORDER|
      ensures var a, b := CanonicalAxes(tax, es), CanonicalAxes(tax, fs);
        && a[i].axis == b[i].axis && a[i].status == b[i].status
        && a[i].reproducibilityClass == b[i].reproducibilityClass && a[i].contributing == b[i].contributing
    {
      OneAxis(tax, es, fs, AXIS_ORDER[i]);
    }
    AnchoredCover(es, fs);
    AnchoredCover(fs, es);
  }

  lemma Covers(es: seq<NativeEntry>, fs: seq<NativeEntry>)
    requires SameFindings(es, fs)
    ensures Covered(es, fs)
  {
    forall i | 0 <= i < |es| ensures Occurs(fs, es[i].scope, es[i].severity, es[i].code) {
      assert Occurs(es, es[i].scope, es[i].severity, es[i].code);
    }
  }

  lemma AnchoredCover(es: seq<NativeEntry>, fs: seq<NativeEntry>)
    requires Covered(es, fs)
    ensures Anchored(es) ==> Anchored(fs)
  {
    if Anchored(es) {
      var i :| 0 <= i < |es| && es[i].code == "timeStamp.trusted" && es[i].severity == Success;
      assert Occurs(fs, es[i].scope, es[i].severity, es[i].code);
    }
  }

  lemma OneAxis(tax: Taxonomy, es: seq<NativeEntry>, fs: seq<NativeEntry>, axis: Axis)
    requires Covered(es, fs) && Covered(fs, es)
    ensures var a, b := AxisFindingOf(tax, es, axis), AxisFindingOf(tax, fs, axis);
      && a.axis == b.axis && a.status == b.status
      && a.reproducibilityClass == b.reproducibilityClass && a.contributing == b.contributing
  {
    hide AxisStatus, AxisClass, AxisEntries, Covered;
    FiledCovered(tax, es, fs, axis);
    FiledCovered(tax, fs, es, axis);
    var a, b := AxisEntries(tax, es, axis), AxisEntries(tax, fs, axis);
    StatusFromCover(a, b, tax.spec(axis).codes);
    ClassFromCover(tax, axis, a, b);
  }
}
