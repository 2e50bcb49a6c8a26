/** `c2pa_native.py`: what the normalised axes of a native report say, told by the report's own entries:
    which entries are read, the axis each belongs to, and the status and classes they give it. */
module C2paAxes {
  import opened JsonValue
  import opened Sorting
  import opened C2paNative

  // ----- the entries of a report -----

  /** The severity map holds a finding of this code, severity and url. */
  predicate Written(payload: Json, e: NativeEntry) {
    match e.severity
    case Success => Holds(Get(payload, "success"), e)
    case Informational => Holds(Get(payload, "informational"), e)
    case Failure => Holds(Get(payload, "failure"), e)
  }

  predicate Holds(bucket: Json, e: NativeEntry) {
    bucket.Arr? && exists i :: 0 <= i < |bucket.items| && WrittenAs(bucket.items[i], e)
  }

  predicate WrittenAs(item: Json, e: NativeEntry) {
    && Get(item, "code") == Str(e.code)
    && (match e.url case Some(u) => Get(item, "url") == Str(u) case None => !Get(item, "url").Str?)
  }

  predicate WrittenInDelta(delta: Json, e: NativeEntry) {
    && Written(Get(delta, "validationDeltas"), e)
    && (match e.ingredientUri
        case Some(u) => Get(delta, "ingredientAssertionURI") == Str(u)
        case None => !Get(delta, "ingredientAssertionURI").Str?)
  }

  /** Read are exactly the findings with a textual code that a report holds under its two scopes. */
  lemma ReadExactly(report: Json, e: NativeEntry)
    ensures e in ParseNativeReport(report) <==>
      var results := Get(report, "validation_results");
      var deltas := Get(results, "ingredientDeltas");
      match e.scope
      case ActiveManifest => e.ingredientUri == None && Written(Get(results, "activeManifest"), e)
      case IngredientDeltas => deltas.Arr? && exists i :: 0 <= i < |deltas.items| && WrittenInDelta(deltas.items[i], e)
  {
    hide Written, WrittenInDelta, Get, SeverityMapEntries;
    var results := Get(report, "validation_results");
    var deltas := Get(results, "ingredientDeltas");
    MapRead(Get(results, "activeManifest"), ActiveManifest, None, e);
    if deltas.Arr? { DeltasRead(deltas.items, e); }
  }

  lemma {:induction false} DeltasRead(deltas: seq<Json>, e: NativeEntry)
    ensures e in DeltaEntries(deltas) <==>
      e.scope == IngredientDeltas && exists i :: 0 <= i < |deltas| && WrittenInDelta(deltas[i], e)
  {
    hide Written, Get, SeverityMapEntries, WrittenInDelta;
    if deltas != [] {
      var d := deltas[0];
      var uri := TextOf(Get(d, "ingredientAssertionURI"));
      DeltasRead(deltas[1..], e);
      MapRead(Get(d, "validationDeltas"), IngredientDeltas, uri, e);
      DeltaMeans(d, e);
      if e in DeltaEntries(deltas) && e.scope == IngredientDeltas && !WrittenInDelta(d, e) {
        var i :| 0 <= i < |deltas[1..]| && WrittenInDelta(deltas[1..][i], e);
        assert WrittenInDelta(deltas[i + 1], e);
      }
      if i :| 0 <= i < |deltas| && WrittenInDelta(deltas[i], e) {
        if i > 0 { assert WrittenInDelta(deltas[1..][i - 1], e); }
      }
    }
  }

  lemma DeltaMeans(d: Json, e: NativeEntry)
    ensures WrittenInDelta(d, e) <==>
      Written(Get(d, "validationDeltas"), e) && e.ingredientUri == TextOf(Get(d, "ingredientAssertionURI"))
  {
    hide Written, Get;
  }

  lemma MapRead(payload: Json, scope: Scope, uri: Option<string>, e: NativeEntry)
    ensures e in SeverityMapEntries(payload, scope, uri) <==>
      e.scope == scope && e.ingredientUri == uri && Written(payload, e)
  {
    BucketRead(payload, Success, scope, uri, e);
    BucketRead(payload, Informational, scope, uri, e);
    BucketRead(payload, Failure, scope, uri, e);
    hide Bucket, WrittenAs;
  }

  lemma BucketRead(payload: Json, sev: Severity, scope: Scope, uri: Option<string>, e: NativeEntry)
    ensures e in Bucket(payload, sev, scope, uri) <==>
      e.severity == sev && e.scope == scope && e.ingredientUri == uri && Written(payload, e)
  {
    var bucket := Get(payload, SeverityName(sev));
    hide WrittenAs, Get;
    if bucket.Arr? { ItemsRead(bucket.items, sev, scope, uri, e); }
    assert e in Bucket(payload, sev, scope, uri) <==>
      e.severity == sev && e.scope == scope && e.ingredientUri == uri && Holds(bucket, e);
  }

  lemma {:induction false} ItemsRead(items: seq<Json>, sev: Severity, scope: Scope, uri: Option<string>, e: NativeEntry)
    ensures e in BucketEntries(items, sev, scope, uri) <==>
      e.severity == sev && e.scope == scope && e.ingredientUri == uri
      && exists i :: 0 <= i < |items| && WrittenAs(items[i], e)
  {
    hide Get;
    if items != [] {
      ItemsRead(items[1..], sev, scope, uri, e);
      if e in BucketEntries(items[1..], sev, scope, uri) {
        var i :| 0 <= i < |items[1..]| && WrittenAs(items[1..][i], e);
        assert WrittenAs(items[i + 1], e);
      }
      if i :| 0 <= i < |items| && WrittenAs(items[i], e) {
        if i > 0 { assert WrittenAs(items[1..][i - 1], e); }
      }
    }
  }

  // ----- the axis of an entry -----

  /** The first axis, in the taxonomy's order, that maps the code. */
  predicate FirstMapping(tax: Taxonomy, code: string, axis: Axis) {
    exists i :: 0 <= i < |tax.order| && tax.order[i] == axis && code in tax.spec(axis).codes
                && forall j :: 0 <= j < i ==> code !in tax.spec(tax.order[j]).codes
  }

  lemma {:induction false} FirstExactly(tax: Taxonomy, axes: seq<Axis>, code: string, axis: Axis)
    ensures tax.FirstAxis(axes, code) == Some(axis) <==>
      exists i :: 0 <= i < |axes| && axes[i] == axis && code in tax.spec(axis).codes
                  && forall j :: 0 <= j < i ==> code !in tax.spec(axes[j]).codes
  {
    if axes != [] {
      var t := axes[1..];
      FirstExactly(tax, t, code, axis);
      if code !in tax.spec(axes[0]).codes {
        if i :| 0 <= i < |t| && t[i] == axis && code in tax.spec(axis).codes
                && forall j :: 0 <= j < i ==> code !in tax.spec(t[j]).codes {
          assert axes[i + 1] == axis;
          forall j | 0 <= j < i + 1 ensures code !in tax.spec(axes[j]).codes { if j > 0 { assert axes[j] == t[j - 1]; } }
        }
        if i :| 0 <= i < |axes| && axes[i] == axis && code in tax.spec(axis).codes
                && forall j :: 0 <= j < i ==> code !in tax.spec(axes[j]).codes {
          assert t[i - 1] == axis;
          forall j | 0 <= j < i - 1 ensures code !in tax.spec(t[j]).codes { assert t[j] == axes[j + 1]; }
        }
      }
    }
  }

  /** An ingredient-scoped entry belongs to the ingredient axis, any other to the first axis that maps
      its code. */
  predicate Belongs(tax: Taxonomy, e: NativeEntry, axis: Axis) {
    match e.scope
    case IngredientDeltas => axis == Ingredient
    case ActiveManifest => FirstMapping(tax, e.code, axis)
  }

  lemma BelongsFiled(tax: Taxonomy, e: NativeEntry, axis: Axis)
    ensures FiledUnder(tax, e) == Some(axis) <==> Belongs(tax, e, axis)
  {
    FirstExactly(tax, tax.order, e.code, axis);
    hide FirstMapping;
    assert FirstMapping(tax, e.code, axis) <==> tax.AxisForCode(e.code) == Some(axis) by { MappingMeans(tax, e.code, axis); }
  }

  lemma MappingMeans(tax: Taxonomy, code: string, axis: Axis)
    ensures FirstMapping(tax, code, axis) <==> tax.AxisForCode(code) == Some(axis)
  {
    FirstExactly(tax, tax.order, code, axis);
  }

  /** Every entry is kept by its own axis as often as the report has it, and by no other. */
  lemma {:induction false} FiledOnce(tax: Taxonomy, es: seq<NativeEntry>, axis: Axis, e: NativeEntry)
    ensures multiset(AxisEntries(tax, es, axis))[e] == if Belongs(tax, e, axis) then multiset(es)[e] else 0
  {
    BelongsFiled(tax, e, axis);
    hide Belongs, FiledUnder;
    if es != [] {
      var n := |es| - 1;
      FiledOnce(tax, es[..n], axis, e);
      assert es == es[..n] + [es[n]];
      assert AxisEntries(tax, es, axis) == AxisEntries(tax, es[..n], axis)
                                           + if FiledUnder(tax, es[n]) == Some(axis) then [es[n]] else [];
    }
  }

  // ----- the status of an axis -----

  /** Some entry of the axis has this severity. */
  predicate Found(tax: Taxonomy, es: seq<NativeEntry>, axis: Axis, sev: Severity) {
    exists i :: 0 <= i < |es| && Belongs(tax, es[i], axis) && es[i].severity == sev
  }

  /** Some entry of the axis has a code the taxonomy declares indeterminate there. */
  predicate Undecided(tax: Taxonomy, es: seq<NativeEntry>, axis: Axis) {
    exists i :: 0 <= i < |es| && Belongs(tax, es[i], axis) && DeclaredIndeterminate(tax, axis, es[i].code)
  }

  predicate DeclaredIndeterminate(tax: Taxonomy, axis: Axis, code: string) {
    code in tax.spec(axis).codes && tax.spec(axis).codes[code] == "indeterminate"
  }

  lemma KeptFound(tax: Taxonomy, es: seq<NativeEntry>, axis: Axis, sev: Severity)
    ensures HasSeverity(AxisEntries(tax, es, axis), sev) <==> Found(tax, es, axis, sev)
  {
    hide Belongs, FiledUnder;
    var mine := AxisEntries(tax, es, axis);
    if i :| 0 <= i < |mine| && mine[i].severity == sev {
      assert mine[i] in mine;
      var k :| 0 <= k < |es| && es[k] == mine[i];
      BelongsFiled(tax, es[k], axis);
    }
    if i :| 0 <= i < |es| && Belongs(tax, es[i], axis) && es[i].severity == sev {
      BelongsFiled(tax, es[i], axis);
      assert es[i] in mine;
      var k :| 0 <= k < |mine| && mine[k] == es[i];
    }
  }

  lemma KeptUndecided(tax: Taxonomy, es: seq<NativeEntry>, axis: Axis)
    ensures DeclaresIndeterminate(AxisEntries(tax, es, axis), tax.spec(axis).codes) <==> Undecided(tax, es, axis)
  {
    hide Belongs, FiledUnder, AxisEntries;
    var mine := AxisEntries(tax, es, axis);
    if i :| 0 <= i < |mine| && DeclaredIndeterminate(tax, axis, mine[i].code) {
      assert mine[i] in mine;
      var k :| 0 <= k < |es| && es[k] == mine[i];
      BelongsFiled(tax, es[k], axis);
    }
    if i :| 0 <= i < |es| && Belongs(tax, es[i], axis) && DeclaredIndeterminate(tax, axis, es[i].code) {
      BelongsFiled(tax, es[i], axis);
      assert es[i] in mine;
      var k :| 0 <= k < |mine| && mine[k] == es[i];
    }
  }

  lemma AnySeverity(es: seq<NativeEntry>)
    ensures es == [] <==> !HasSeverity(es, Success) && !HasSeverity(es, Informational) && !HasSeverity(es, Failure)
    ensures (forall i :: 0 <= i < |es| ==> es[i].severity == Informational) <==>
      !HasSeverity(es, Success) && !HasSeverity(es, Failure)
  {
    if es != [] {
      assert es[0].severity == Success || es[0].severity == Informational || es[0].severity == Failure;
    }
    if i :| 0 <= i < |es| && es[i].severity != Informational {
      assert es[i].severity == Success || es[i].severity == Failure;
    }
  }

  /** The status of every canonical axis, by the report's entries that belong to it. */
  lemma StatusExactly(tax: Taxonomy, es: seq<NativeEntry>, k: nat)
    requires k < |AXIS_ORDER|
    ensures var axis, status := AXIS_ORDER[k], CanonicalAxes(tax, es)[k].status;
      if axis == Revocation then status == NotEvaluated
      else
        var failed, succeeded := Found(tax, es, axis, Failure), Found(tax, es, axis, Success);
        && (status == Failed <==> failed)
        && (status == Satisfied <==> !failed && succeeded && !Undecided(tax, es, axis))
        && (status == Indeterminate <==>
              && !failed
              && (Undecided(tax, es, axis) || (Found(tax, es, axis, Informational) && !succeeded)))
        && (status == NotEvaluated <==> !failed && !succeeded && !Found(tax, es, axis, Informational))
  {
    var axis := AXIS_ORDER[k];
    hide AxisClass, AxisEntries, AXIS_ORDER, Found, HasSeverity, DeclaresIndeterminate, Undecided, Belongs;
    var mine := AxisEntries(tax, es, axis);
    KeptFound(tax, es, axis, Failure);
    KeptFound(tax, es, axis, Success);
    KeptFound(tax, es, axis, Informational);
    KeptUndecided(tax, es, axis);
    AnySeverity(mine);
    NothingUndecided(mine, tax.spec(axis).codes);
    assert CanonicalAxes(tax, es)[k] == AxisFindingOf(tax, es, axis);
  }

  lemma NothingUndecided(es: seq<NativeEntry>, codes: map<string, string>)
    ensures DeclaresIndeterminate(es, codes) ==> es != []
  {}

  /** Every canonical axis is there, once, in order, with the entries that belong to it. */
  lemma AxesExactly(tax: Taxonomy, es: seq<NativeEntry>, k: nat, e: NativeEntry)
    requires k < |AXIS_ORDER|
    ensures |CanonicalAxes(tax, es)| == 8 && CanonicalAxes(tax, es)[k].axis == AXIS_ORDER[k]
    ensures multiset(CanonicalAxes(tax, es)[k].nativeFindings)[e]
         == if Belongs(tax, e, AXIS_ORDER[k]) then multiset(es)[e] else 0
    ensures NoRepeats(AXIS_ORDER) && forall a: Axis :: a in AXIS_ORDER <==> !a.OtherAxis?
  {
    var axis := AXIS_ORDER[k];
    hide AxisClass, AxisEntries, Belongs, AxisStatus;
    FiledOnce(tax, es, axis, e);
    OrderExactly();
    assert CanonicalAxes(tax, es)[k] == AxisFindingOf(tax, es, axis);
  }

  lemma OrderExactly()
    ensures NoRepeats(AXIS_ORDER) && forall a: Axis :: a in AXIS_ORDER <==> !a.OtherAxis?
  {
    forall a: Axis ensures a in AXIS_ORDER <==> !a.OtherAxis? {
      match a
      case ManifestStructure => assert AXIS_ORDER[0] == a;
      case AssetBinding => assert AXIS_ORDER[1] == a;
      case ClaimSignature => assert AXIS_ORDER[2] == a;
      case SignerTrust => assert AXIS_ORDER[3] == a;
      case SignerValidity => assert AXIS_ORDER[4] == a;
      case Timestamp => assert AXIS_ORDER[5] == a;
      case Revocation => assert AXIS_ORDER[6] == a;
      case Ingredient => assert AXIS_ORDER[7] == a;
      case OtherAxis(_) =>
    }
  }

  /** The validation clock is anchored exactly by a successful trusted timestamp, in either scope. */
  lemma AnchoredExactly(es: seq<NativeEntry>)
    ensures Anchored(es) <==> exists scope :: Occurs(es, scope, Success, "timeStamp.trusted")
  {
    if i :| 0 <= i < |es| && es[i].code == "timeStamp.trusted" && es[i].severity == Success {
      assert Occurs(es, es[i].scope, Success, "timeStamp.trusted");
    }
  }

  // ----- the class of an axis -----

  /** The axis takes over the class of another axis that maps the code of one of its entries. */
  ghost predicate TakenOver(tax: Taxonomy, es: seq<NativeEntry>, axis: Axis, c: string) {
    && tax.spec(axis).inherits
    && exists i :: 0 <= i < |es| && Belongs(tax, es[i], axis) && MappedElsewhere(tax, es[i].code, axis, c)
  }

  ghost predicate MappedElsewhere(tax: Taxonomy, code: string, axis: Axis, c: string) {
    exists b :: FirstMapping(tax, code, b) && b != axis && tax.spec(b).reproducibilityClass == c
  }

  lemma MappedMeans(tax: Taxonomy, code: string, axis: Axis, c: string)
    ensures MappedElsewhere(tax, code, axis, c) <==> InheritsFrom(tax, axis, code, c)
  {
    hide FirstMapping;
    var hit := tax.AxisForCode(code);
    if hit.Some? { MappingMeans(tax, code, hit.value); }
    if b :| FirstMapping(tax, code, b) && b != axis && tax.spec(b).reproducibilityClass == c {
      MappingMeans(tax, code, b);
    }
  }

  lemma InheritedExactly(tax: Taxonomy, es: seq<NativeEntry>, axis: Axis, c: string)
    requires tax.spec(axis).inherits
    ensures c in Inherited(tax, axis, AxisEntries(tax, es, axis)) <==> TakenOver(tax, es, axis, c)
  {
    hide Belongs, FiledUnder, InheritsFrom, MappedElsewhere;
    var mine := AxisEntries(tax, es, axis);
    if i :| 0 <= i < |mine| && InheritsFrom(tax, axis, mine[i].code, c) {
      assert mine[i] in mine;
      var k :| 0 <= k < |es| && es[k] == mine[i];
      BelongsFiled(tax, es[k], axis);
      MappedMeans(tax, es[k].code, axis, c);
    }
    if i :| 0 <= i < |es| && Belongs(tax, es[i], axis) && MappedElsewhere(tax, es[i].code, axis, c) {
      BelongsFiled(tax, es[i], axis);
      MappedMeans(tax, es[i].code, axis, c);
      assert es[i] in mine;
      var k :| 0 <= k < |mine| && mine[k] == es[i];
    }
  }

  /** The classes from the most to the least reproducible; an unknown one counts as the first. */
  lemma StrengthExactly(c: string)
    ensures Strength("policy_dependent") == 1 && Strength("validator_version_dependent") == 2
    ensures Strength("time_dependent") == 3 && Strength("resource_dependent") == 4
    ensures Strength(c) > 0 ==>
      c in {"policy_dependent", "validator_version_dependent", "time_dependent", "resource_dependent"}
  {}

  predicate FirstStrongest(cs: seq<string>, i: nat) {
    && i < |cs|
    && (forall j :: 0 <= j < |cs| ==> Strength(cs[j]) <= Strength(cs[i]))
    && (forall j :: 0 <= j < i ==> Strength(cs[j]) < Strength(cs[i]))
  }

  /** The weakest class is the first among those no other one exceeds. */
  lemma {:induction false} WeakestExactly(cs: seq<string>)
    requires cs != []
    ensures exists i: nat :: FirstStrongest(cs, i) && Weakest(cs) == cs[i]
  {
    hide Strength;
    if |cs| == 1 {
      assert FirstStrongest(cs, 0);
    } else {
      var n := |cs| - 1;
      WeakestExactly(cs[..n]);
      var i: nat :| FirstStrongest(cs[..n], i) && Weakest(cs[..n]) == cs[..n][i];
      var k := if Strength(cs[n]) > Strength(cs[i]) then n else i;
      assert Weakest(cs) == cs[k];
      hide Weakest;
      StrongestMore(cs, i, k);
    }
  }

  lemma StrongestMore(cs: seq<string>, i: nat, k: nat)
    requires |cs| > 1 && FirstStrongest(cs[..|cs| - 1], i)
    requires k == if Strength(cs[|cs| - 1]) > Strength(cs[i]) then |cs| - 1 else i
    ensures FirstStrongest(cs, k)
  {
    hide Strength;
    var n := |cs| - 1;
    assert forall j :: 0 <= j < n ==> cs[..n][j] == cs[j];
  }

  /** The classes that contribute to an axis, its own first of all. */
  function OwnClasses(tax: Taxonomy, axis: Axis): seq<string> {
    if tax.spec(axis).contributing == [] then [tax.spec(axis).reproducibilityClass] else tax.spec(axis).contributing
  }

  /** An axis that takes over no class keeps its own; otherwise its classes are its own and those taken
      over, each once and in order, and its class is the weakest of them. Revocation takes over none. */
  lemma ClassExactly(tax: Taxonomy, es: seq<NativeEntry>, k: nat)
    requires k < |AXIS_ORDER|
    ensures var axis, a := AXIS_ORDER[k], CanonicalAxes(tax, es)[k];
      if axis == Revocation then
        a.reproducibilityClass == tax.spec(axis).reproducibilityClass && a.contributing == tax.spec(axis).contributing
      else if forall c :: !TakenOver(tax, es, axis, c) then
        a.reproducibilityClass == tax.spec(axis).reproducibilityClass && a.contributing == OwnClasses(tax, axis)
      else
        && (forall c :: c in a.contributing <==> c in OwnClasses(tax, axis) || TakenOver(tax, es, axis, c))
        && NoRepeats(a.contributing) && Ordered(a.contributing, StrLe)
        && a.contributing != [] && a.reproducibilityClass == Weakest(a.contributing)
  {
    var axis := AXIS_ORDER[k];
    var spec, mine := tax.spec(axis), AxisEntries(tax, es, axis);
    assert CanonicalAxes(tax, es)[k] == AxisFindingOf(tax, es, axis);
    hide AxisStatus, AxisEntries, AXIS_ORDER, TakenOver, Inherited, Weakest, Sort, Dedup;
    if spec.inherits {
      forall c ensures c in Inherited(tax, axis, mine) <==> TakenOver(tax, es, axis, c) {
        InheritedExactly(tax, es, axis, c);
      }
      var inherited := Inherited(tax, axis, mine);
      if inherited != [] {
        assert inherited[0] in inherited;
        SortedClasses(OwnClasses(tax, axis), inherited);
      }
    } else {
      NothingTakenOver(tax, es, axis);
    }
  }

  lemma NothingTakenOver(tax: Taxonomy, es: seq<NativeEntry>, axis: Axis)
    requires !tax.spec(axis).inherits
    ensures forall c :: !TakenOver(tax, es, axis, c)
  {}

  lemma SortedClasses(own: seq<string>, inherited: seq<string>)
    requires inherited != []
    ensures var all := Sort(Dedup(own + inherited), StrLe);
      && all != [] && NoRepeats(all) && Ordered(all, StrLe) && forall c :: c in all <==> c in own || c in inherited
  {
    var xs := Dedup(own + inherited);
    var all := Sort(xs, StrLe);
    StrLeByKeyIsPreorder((s: string) => s, StrLe);
    SortOrdered(xs, StrLe);
    hide Sort, Dedup, StrLe;
    NoRepeatsCount(xs);
    NoRepeatsCount(all);
    forall c ensures c in all <==> c in own || c in inherited {
      assert c in all <==> c in multiset(all);
      assert c in xs <==> c in multiset(xs);
    }
    assert |all| == |xs|;
    assert inherited[0] in own + inherited;
    assert xs != [];
  }
}
