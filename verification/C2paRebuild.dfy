/** `c2pa_srs_observed.py`, `_native_report_from_findings`: the report rebuilt from a producer's
    claims, and how its normalisation relates to that of the retained report. */
module C2paRebuild {
  import opened JsonValue
  import opened PyText
  import opened C2paNative
  import opened C2paObserved

  function SeverityOf(j: Json): Option<Severity> {
    if j == Str("success") then Some(Success)
    else if j == Str("informational") then Some(Informational)
    else if j == Str("failure") then Some(Failure)
    else None
  }

  /** The claim can be indexed the way the builder does without raising. */
  predicate Usable(item: Json) {
    && item.Obj?
    && HasKey(item.members, "code") && HasKey(item.members, "scope")
    && SeverityOf(Get(item, "severity")).Some?
  }

  function EntryOf(item: Json): Json
    requires item.Obj?
  {
    Obj([Member("code", Get(item, "code"))]
        + (if HasKey(item.members, "uri") then [Member("url", Get(item, "uri"))] else []))
  }

  predicate IsActive(item: Json) { Get(item, "scope") == Str("activeManifest") }

  /** The builder's `active[severity]` or `ingredient[severity]` list. */
  function BucketOf(items: seq<Json>, active: bool, sev: Severity): seq<Json> {
    if items == [] then []
    else
      var item := items[|items| - 1];
      var r := BucketOf(items[..|items| - 1], active, sev);
      if item.Obj? && IsActive(item) == active && SeverityOf(Get(item, "severity")) == Some(sev) then
        r + [EntryOf(item)]
      else r
  }

  function SeverityMap(items: seq<Json>, active: bool): Json {
    Obj([Member("success", Arr(BucketOf(items, active, Success))),
         Member("informational", Arr(BucketOf(items, active, Informational))),
         Member("failure", Arr(BucketOf(items, active, Failure)))])
  }

  predicate AnyIngredient(items: seq<Json>) {
    BucketOf(items, false, Success) != [] || BucketOf(items, false, Informational) != []
    || BucketOf(items, false, Failure) != []
  }

  function RebuiltReport(items: seq<Json>, state: Json): Json {
    Obj([Member("validation_state", state),
         Member("validation_results",
           Obj([Member("activeManifest", SeverityMap(items, true))]
               + (if AnyIngredient(items) then
                    [Member("ingredientDeltas", Arr([Obj([Member("validationDeltas", SeverityMap(items, false))])]))]
                  else [])))])
  }

  predicate Falsy(j: Json) {
    match j
    case Null => true
    case Bool(b) => !b
    case Int(n) => n == 0
    case Str(s) => s == ""
    case Arr(items) => items == []
    case Obj(ms) => ms == []
  }

  /** None is the exception an unusable claim raises. */
  function Rebuild(claimed: Json, state: Json): Option<Json> {
    if !claimed.Arr? then
      if Falsy(claimed) then Some(RebuiltReport([], state)) else None
    else if forall i :: 0 <= i < |claimed.items| ==> Usable(claimed.items[i]) then
      Some(RebuiltReport(claimed.items, state))
    else None
  }

  type Buckets = map<(bool, Severity), seq<Json>>

  method RebuildLoop(claimed: Json, state: Json) returns (r: Option<Json>)
    ensures r == Rebuild(claimed, state)
  {
    hide Usable, BucketOf;
    if !claimed.Arr? && !Falsy(claimed) { return None; }
    var items := if claimed.Arr? then claimed.items else [];
    var filled := FillBuckets(items);
    if filled.None? { return None; }
    var buckets := filled.value;
    var active := Obj([Member("success", Arr(buckets[(true, Success)])),
                       Member("informational", Arr(buckets[(true, Informational)])),
                       Member("failure", Arr(buckets[(true, Failure)]))]);
    var ingredient := Obj([Member("success", Arr(buckets[(false, Success)])),
                           Member("informational", Arr(buckets[(false, Informational)])),
                           Member("failure", Arr(buckets[(false, Failure)]))]);
    var results := [Member("activeManifest", active)];
    if buckets[(false, Success)] != [] || buckets[(false, Informational)] != [] || buckets[(false, Failure)] != [] {
      results := results + [Member("ingredientDeltas", Arr([Obj([Member("validationDeltas", ingredient)])]))];
    }
    assert active == SeverityMap(items, true) && ingredient == SeverityMap(items, false);
    assert results == [Member("activeManifest", active)]
      + (if AnyIngredient(items) then
           [Member("ingredientDeltas", Arr([Obj([Member("validationDeltas", ingredient)])]))]
         else []);
    return Some(Obj([Member("validation_state", state), Member("validation_results", Obj(results))]));
  }

  /** The loop over the claims; None where a claim is unusable. */
  method FillBuckets(items: seq<Json>) returns (r: Option<Buckets>)
    ensures r.Some? <==> forall i :: 0 <= i < |items| ==> Usable(items[i])
    ensures r.Some? ==> forall b, s :: (b, s) in r.value && r.value[(b, s)] == BucketOf(items, b, s)
  {
    hide Usable, EntryOf, IsActive, SeverityOf;
    var buckets: Buckets := map b: bool, s: Severity {:trigger (b, s)} | true :: (b, s) := [];
    for i := 0 to |items|
      invariant forall j :: 0 <= j < i ==> Usable(items[j])
      invariant forall b, s :: (b, s) in buckets && buckets[(b, s)] == BucketOf(items[..i], b, s)
    {
      var item := items[i];
      if !Usable(item) { return None; }
      UsableObject(item);
      assert items[..i + 1][..i] == items[..i] && items[..i + 1][i] == item;
      var target := (IsActive(item), SeverityOf(Get(item, "severity")).value);
      buckets := buckets[target := buckets[target] + [EntryOf(item)]];
    }
    assert items[..|items|] == items;
    return Some(buckets);
  }

  lemma UsableObject(item: Json)
    requires Usable(item)
    ensures item.Obj? && SeverityOf(Get(item, "severity")).Some?
  {}

  // ----- reading the rebuilt report -----

  function ScopeOf(active: bool): Scope { if active then ActiveManifest else IngredientDeltas }

  /** The entries one bucket is read back as. */
  function Reread(items: seq<Json>, active: bool, sev: Severity): seq<NativeEntry> {
    BucketEntries(BucketOf(items, active, sev), sev, ScopeOf(active), None)
  }

  function RereadAll(items: seq<Json>, active: bool): seq<NativeEntry> {
    Reread(items, active, Success) + Reread(items, active, Informational) + Reread(items, active, Failure)
  }

  lemma GetFirst(a: Member, rest: seq<Member>, k: string)
    ensures Get(Obj([a] + rest), k) == if a.key == k then a.value else Get(Obj(rest), k)
  {
    assert ([a] + rest)[1..] == rest;
  }

  lemma SeverityMapRead(items: seq<Json>, active: bool)
    ensures SeverityMapEntries(SeverityMap(items, active), ScopeOf(active), None) == RereadAll(items, active)
  {
    hide BucketOf, BucketEntries;
    var a := Member("success", Arr(BucketOf(items, active, Success)));
    var b := Member("informational", Arr(BucketOf(items, active, Informational)));
    var c := Member("failure", Arr(BucketOf(items, active, Failure)));
    var m := SeverityMap(items, active);
    assert m == Obj([a] + ([b] + ([c] + [])));
    GetFirst(a, [b] + ([c] + []), "success");
    GetFirst(a, [b] + ([c] + []), "informational");
    GetFirst(b, [c] + [], "informational");
    GetFirst(a, [b] + ([c] + []), "failure");
    GetFirst(b, [c] + [], "failure");
    GetFirst(c, [], "failure");
  }

  lemma RebuiltRead(items: seq<Json>, state: Json)
    ensures ParseNativeReport(RebuiltReport(items, state)) == RereadAll(items, true) + RereadAll(items, false)
  {
    hide BucketOf, BucketEntries, SeverityMap, SeverityMapEntries, RereadAll;
    var report := RebuiltReport(items, state);
    var active := Member("activeManifest", SeverityMap(items, true));
    var delta := Obj([Member("validationDeltas", SeverityMap(items, false))]);
    var deltas := Member("ingredientDeltas", Arr([delta]));
    var more := if AnyIngredient(items) then [deltas] else [];
    var results := Member("validation_results", Obj([active] + more));
    assert report == Obj([Member("validation_state", state)] + [results]);
    GetFirst(Member("validation_state", state), [results], "validation_results");
    assert [results] == [results] + [];
    GetFirst(results, [], "validation_results");
    GetFirst(active, more, "activeManifest");
    GetFirst(active, more, "ingredientDeltas");
    SeverityMapRead(items, true);
    SeverityMapRead(items, false);
    if AnyIngredient(items) {
      assert more == [deltas] + [];
      GetFirst(deltas, [], "ingredientDeltas");
      OneDelta(SeverityMap(items, false));
    } else {
      NoIngredient(items);
      assert RereadAll(items, true) + [] == RereadAll(items, true);
    }
  }

  lemma OneDelta(m: Json)
    ensures DeltaEntries([Obj([Member("validationDeltas", m)])]) == SeverityMapEntries(m, IngredientDeltas, None)
  {
    var d := Obj([Member("validationDeltas", m)]);
    assert [Member("validationDeltas", m)] == [Member("validationDeltas", m)] + [];
    GetFirst(Member("validationDeltas", m), [], "validationDeltas");
    GetFirst(Member("validationDeltas", m), [], "ingredientAssertionURI");
    assert [d][1..] == [];
    assert DeltaEntries([]) == [];
    assert SeverityMapEntries(m, IngredientDeltas, None) + [] == SeverityMapEntries(m, IngredientDeltas, None);
  }

  lemma NoIngredient(items: seq<Json>)
    requires !AnyIngredient(items)
    ensures RereadAll(items, false) == []
  {
    hide BucketOf;
  }

  // ----- which findings survive -----

  predicate TextCode(item: Json) { Get(item, "code").Str? }

  /** The claim is filed under this scope and severity with this textual code. */
  predicate Claims(item: Json, active: bool, sev: Severity, code: string) {
    && item.Obj? && IsActive(item) == active && SeverityOf(Get(item, "severity")) == Some(sev)
    && Get(item, "code") == Str(code)
  }

  lemma {:induction false} BucketAppend(xs: seq<Json>, ys: seq<Json>, sev: Severity, scope: Scope)
    ensures BucketEntries(xs + ys, sev, scope, None)
         == BucketEntries(xs, sev, scope, None) + BucketEntries(ys, sev, scope, None)
  {
    if xs == [] {
      assert xs + ys == ys;
    } else {
      assert (xs + ys)[1..] == xs[1..] + ys;
      BucketAppend(xs[1..], ys, sev, scope);
    }
  }

  lemma OneEntry(item: Json, sev: Severity, scope: Scope)
    requires item.Obj?
    ensures var r := BucketEntries([EntryOf(item)], sev, scope, None);
      if TextCode(item) then |r| == 1 && r[0].code == Get(item, "code").s && r[0].severity == sev && r[0].scope == scope
      else r == []
  {
    assert [EntryOf(item)][1..] == [];
    assert EntryOf(item).members[0] == Member("code", Get(item, "code"));
    assert Get(EntryOf(item), "code") == Get(item, "code");
  }

  lemma OneRead(item: Json, active: bool, sev: Severity, code: string)
    requires item.Obj? && IsActive(item) == active && SeverityOf(Get(item, "severity")) == Some(sev)
    ensures Occurs(BucketEntries([EntryOf(item)], sev, ScopeOf(active), None), ScopeOf(active), sev, code)
       <==> Claims(item, active, sev, code)
  {
    OneEntry(item, sev, ScopeOf(active));
    hide EntryOf, BucketEntries, IsActive, SeverityOf;
  }

  lemma {:induction false} RereadOccurs(items: seq<Json>, active: bool, sev: Severity, code: string)
    ensures Occurs(Reread(items, active, sev), ScopeOf(active), sev, code)
        <==> exists i :: 0 <= i < |items| && Claims(items[i], active, sev, code)
  {
    if items != [] {
      var head, item := items[..|items| - 1], items[|items| - 1];
      RereadOccurs(head, active, sev, code);
      LastClaim(items, active, sev, code);
      hide EntryOf, IsActive, SeverityOf, BucketEntries, Occurs, TextCode;
      var a := Reread(head, active, sev);
      var b := Reread(items, active, sev);
      if item.Obj? && IsActive(item) == active && SeverityOf(Get(item, "severity")) == Some(sev) {
        BucketAppend(BucketOf(head, active, sev), [EntryOf(item)], sev, ScopeOf(active));
        OneRead(item, active, sev, code);
        OccursAppend(a, BucketEntries([EntryOf(item)], sev, ScopeOf(active), None), ScopeOf(active), sev, code);
      } else {
        assert b == a;
      }
    }
  }

  lemma LastClaim(items: seq<Json>, active: bool, sev: Severity, code: string)
    requires items != []
    ensures var head := items[..|items| - 1];
      (exists i :: 0 <= i < |items| && Claims(items[i], active, sev, code)) <==>
        (exists i :: 0 <= i < |head| && Claims(head[i], active, sev, code))
        || Claims(items[|items| - 1], active, sev, code)
  {
    hide Claims;
    var head := items[..|items| - 1];
    assert forall i :: 0 <= i < |head| ==> head[i] == items[i];
  }

  lemma OccursAppend(a: seq<NativeEntry>, b: seq<NativeEntry>, scope: Scope, sev: Severity, code: string)
    ensures Occurs(a + b, scope, sev, code) <==> Occurs(a, scope, sev, code) || Occurs(b, scope, sev, code)
  {
    if Occurs(b, scope, sev, code) {
      var i :| 0 <= i < |b| && b[i].scope == scope && b[i].severity == sev && b[i].code == code;
      assert (a + b)[|a| + i] == b[i];
    }
    if Occurs(a, scope, sev, code) {
      var i :| 0 <= i < |a| && a[i].scope == scope && a[i].severity == sev && a[i].code == code;
      assert (a + b)[i] == a[i];
    }
  }

  lemma {:induction false} BucketLabels(xs: seq<Json>, sev: Severity, scope: Scope)
    ensures forall e :: e in BucketEntries(xs, sev, scope, None) ==> e.severity == sev && e.scope == scope
  {
    if xs != [] { BucketLabels(xs[1..], sev, scope); }
  }

  /** What the rebuilt report holds, in terms of the claims. */
  lemma RebuiltOccurs(items: seq<Json>, state: Json, active: bool, sev: Severity, code: string)
    ensures Occurs(ParseNativeReport(RebuiltReport(items, state)), ScopeOf(active), sev, code)
        <==> exists i :: 0 <= i < |items| && Claims(items[i], active, sev, code)
  {
    hide ParseNativeReport, RebuiltReport, Reread, Claims;
    RebuiltRead(items, state);
    RereadOccurs(items, active, sev, code);
    OccursAppend(RereadAll(items, true), RereadAll(items, false), ScopeOf(active), sev, code);
    RereadAllOccurs(items, true, ScopeOf(active), sev, code);
    RereadAllOccurs(items, false, ScopeOf(active), sev, code);
  }

  lemma RereadAllOccurs(items: seq<Json>, active: bool, scope: Scope, sev: Severity, code: string)
    ensures Occurs(RereadAll(items, active), scope, sev, code)
        <==> scope == ScopeOf(active) && Occurs(Reread(items, active, sev), scope, sev, code)
  {
    hide BucketOf, BucketEntries;
    var a, b, c := Reread(items, active, Success), Reread(items, active, Informational), Reread(items, active, Failure);
    OccursAppend(a + b, c, scope, sev, code);
    OccursAppend(a, b, scope, sev, code);
    BucketLabels(BucketOf(items, active, Success), Success, ScopeOf(active));
    BucketLabels(BucketOf(items, active, Informational), Informational, ScopeOf(active));
    BucketLabels(BucketOf(items, active, Failure), Failure, ScopeOf(active));
  }

  // ----- the theorem -----

  ghost predicate AllTextCodes(claimed: Json) {
    forall i :: 0 <= i < |ClaimedItems(claimed)| ==> TextCode(ClaimedItems(claimed)[i])
  }

  /** A claim with the key of an entry spells that entry's scope and severity; with a textual code
      it claims exactly that entry's finding. */
  lemma KeyMeansClaim(item: Json, e: NativeEntry, repr: Json -> string)
    requires item.Obj? && TextCode(item) && ClaimKey(item, repr) == EntryKey(e)
    ensures Claims(item, e.scope == ActiveManifest, e.severity, e.code) && Usable(item)
  {
    OnlyTextSpells(Get(item, "scope"), ScopeName(e.scope), repr);
    OnlyTextSpells(Get(item, "severity"), SeverityName(e.severity), repr);
    PresentKey(item.members, "code");
    PresentKey(item.members, "scope");
  }

  lemma {:induction false} PresentKey(ms: seq<Member>, k: string)
    ensures Lookup(ms, k) != Null ==> HasKey(ms, k)
  {
    if ms != [] { PresentKey(ms[1..], k); }
  }

  /** Only a text spells a scope or severity name under `str`. */
  lemma OnlyTextSpells(j: Json, name: string, repr: Json -> string)
    requires name in ["activeManifest", "ingredientDeltas", "success", "informational", "failure"]
    requires PyStr(j, repr) == name
    ensures j == Str(name)
  {
    assert name[0] in "aisf";
    NonTextSpelling(j, repr);
  }

  lemma NonTextSpelling(j: Json, repr: Json -> string)
    ensures !j.Str? ==> PyStr(j, repr) != [] && PyStr(j, repr)[0] !in "aisf"
  {
    if j.Int? {
      var m: nat := if j.n < 0 then -j.n else j.n;
      assert IsDigit(Decimal(m)[0]);
    }
  }

  lemma ClaimMatches(items: seq<Json>, es: seq<NativeEntry>, repr: Json -> string, e: NativeEntry) returns (i: nat)
    requires multiset(ClaimKeys(items, repr)) == multiset(EntryKeys(es)) && e in es
    ensures i < |items| && ClaimKey(items[i], repr) == EntryKey(e)
  {
    var k :| 0 <= k < |es| && es[k] == e;
    assert EntryKeys(es)[k] in multiset(ClaimKeys(items, repr));
    i :| 0 <= i < |items| && ClaimKeys(items, repr)[i] == EntryKey(e);
  }

  lemma EntryMatches(items: seq<Json>, es: seq<NativeEntry>, repr: Json -> string, i: nat) returns (e: NativeEntry)
    requires multiset(ClaimKeys(items, repr)) == multiset(EntryKeys(es)) && i < |items|
    ensures e in es && ClaimKey(items[i], repr) == EntryKey(e)
  {
    assert ClaimKeys(items, repr)[i] in multiset(EntryKeys(es));
    var k :| 0 <= k < |es| && EntryKeys(es)[k] == ClaimKey(items[i], repr);
    e := es[k];
  }

  /** Every claim, or another one that the comparison cannot tell from it, has a textual code. */
  ghost predicate Twinned(claimed: Json, repr: Json -> string) {
    var items := ClaimedItems(claimed);
    forall i :: 0 <= i < |items| ==> HasTwin(items, items[i], repr)
  }

  predicate HasTwin(items: seq<Json>, item: Json, repr: Json -> string) {
    exists j :: 0 <= j < |items| && TextCode(items[j]) && ClaimKey(items[j], repr) == ClaimKey(item, repr)
  }

  /** With textual codes only, a claim that corresponds to the report is never unusable. */
  lemma TextClaimsUsable(claimed: Json, report: Json, state: Json, repr: Json -> string)
    requires FindingsMismatch(claimed, report, repr) == None && AllTextCodes(claimed) && claimed.Arr?
    ensures Rebuild(claimed, state).Some? && Twinned(claimed, repr)
  {
    hide ParseNativeReport, RebuiltReport, FindingsMismatch, Claims, Usable, ClaimKey, EntryKey, UriClaims, UrlPool,
         TextCode;
    var items := claimed.items;
    MismatchExactly(claimed, report, repr);
    forall i | 0 <= i < |items| ensures Usable(items[i]) {
      var e := EntryMatches(items, ParseNativeReport(report), repr, i);
      KeyMeansClaim(items[i], e, repr);
    }
  }

  /** For corresponding claims that do not raise, the rebuilt report holds the same findings as the
      retained one, repetition aside, exactly when every claim has a textual code or a twin with
      one. */
  lemma RebuiltFindingsExactly(claimed: Json, report: Json, state: Json, repr: Json -> string)
    requires claimed.Arr? && FindingsMismatch(claimed, report, repr) == None
    requires Rebuild(claimed, state).Some?
    ensures SameFindings(ParseNativeReport(Rebuild(claimed, state).value), ParseNativeReport(report))
       <==> Twinned(claimed, repr)
  {
    MismatchExactly(claimed, report, repr);
    hide ParseNativeReport, RebuiltReport, FindingsMismatch, UriClaims, UrlPool, Usable, TextCode, ClaimKey, ClaimKeys,
         EntryKeys, HasTwin, SameFindings;
    var items, fs := claimed.items, ParseNativeReport(report);
    var es := ParseNativeReport(RebuiltReport(items, state));
    if Twinned(claimed, repr) { SameFindingsRebuilt(items, fs, state, repr); }
    if SameFindings(es, fs) {
      forall i | 0 <= i < |items| ensures HasTwin(items, items[i], repr) {
        TwinFound(items, fs, state, repr, i);
      }
    }
  }

  lemma TwinFound(items: seq<Json>, fs: seq<NativeEntry>, state: Json, repr: Json -> string, i: nat)
    requires multiset(ClaimKeys(items, repr)) == multiset(EntryKeys(fs)) && i < |items|
    requires forall k :: 0 <= k < |items| ==> items[k].Obj?
    requires SameFindings(ParseNativeReport(RebuiltReport(items, state)), fs)
    ensures HasTwin(items, items[i], repr)
  {
    hide ParseNativeReport, RebuiltReport, ClaimKey, ClaimKeys, EntryKeys, IsActive, SeverityOf;
    var e := EntryMatches(items, fs, repr, i);
    var k :| 0 <= k < |fs| && fs[k] == e;
    assert Occurs(fs, e.scope, e.severity, e.code);
    var active := e.scope == ActiveManifest;
    RebuiltOccurs(items, state, active, e.severity, e.code);
    var j :| 0 <= j < |items| && Claims(items[j], active, e.severity, e.code);
    var e' := EntryMatches(items, fs, repr, j);
    KeyMeansClaim(items[j], e', repr);
    assert e'.code == e.code && e'.severity == e.severity && e'.scope == e.scope;
    assert EntryKey(e') == EntryKey(e);
  }

  /** Then it normalises to the same status, class and contributing classes on every axis, and to
      the same clock anchor. */
  lemma RebuiltAxesAgree(tax: Taxonomy, claimed: Json, report: Json, state: Json, repr: Json -> string)
    requires FindingsMismatch(claimed, report, repr) == None && claimed.Arr?
    requires Rebuild(claimed, state).Some? && Twinned(claimed, repr)
    ensures var es, fs := ParseNativeReport(Rebuild(claimed, state).value), ParseNativeReport(report);
      && (forall i :: 0 <= i < |AXIS_ORDER| ==>
           var a, b := CanonicalAxes(tax, es)[i], CanonicalAxes(tax, fs)[i];
           && a.axis == b.axis && a.status == b.status
           && a.reproducibilityClass == b.reproducibilityClass && a.contributing == b.contributing)
      && Anchored(es) == Anchored(fs)
  {
    hide CanonicalAxes, Anchored, ParseNativeReport, Rebuild, FindingsMismatch, SameFindings, Twinned;
    RebuiltFindingsExactly(claimed, report, state, repr);
    AxesDependOnFindings(tax, ParseNativeReport(Rebuild(claimed, state).value), ParseNativeReport(report));
  }

  lemma SameFindingsRebuilt(items: seq<Json>, fs: seq<NativeEntry>, state: Json, repr: Json -> string)
    requires multiset(ClaimKeys(items, repr)) == multiset(EntryKeys(fs))
    requires forall i :: 0 <= i < |items| ==> items[i].Obj? && HasTwin(items, items[i], repr)
    ensures SameFindings(ParseNativeReport(RebuiltReport(items, state)), fs)
  {
    hide ParseNativeReport, RebuiltReport, ClaimKey, EntryKey, ClaimKeys, EntryKeys, Claims, HasTwin, Occurs;
    var es := ParseNativeReport(RebuiltReport(items, state));
    forall scope, sev, code ensures Occurs(es, scope, sev, code) <==> Occurs(fs, scope, sev, code) {
      var active := scope == ActiveManifest;
      RebuiltOccurs(items, state, active, sev, code);
      if Occurs(fs, scope, sev, code) { EntryClaimed(items, fs, repr, scope, sev, code); }
      if i :| 0 <= i < |items| && Claims(items[i], active, sev, code) {
        ClaimEntered(items, fs, repr, scope, sev, code, i);
      }
    }
  }

  lemma EntryClaimed(items: seq<Json>, fs: seq<NativeEntry>, repr: Json -> string, scope: Scope, sev: Severity, code: string)
    requires multiset(ClaimKeys(items, repr)) == multiset(EntryKeys(fs)) && Occurs(fs, scope, sev, code)
    requires forall i :: 0 <= i < |items| ==> items[i].Obj? && HasTwin(items, items[i], repr)
    ensures exists j :: 0 <= j < |items| && Claims(items[j], scope == ActiveManifest, sev, code)
  {
    hide ClaimKey, EntryKey, ClaimKeys, EntryKeys, Claims, TextCode;
    var k :| 0 <= k < |fs| && fs[k].scope == scope && fs[k].severity == sev && fs[k].code == code;
    var i := ClaimMatches(items, fs, repr, fs[k]);
    assert HasTwin(items, items[i], repr);
    var j :| 0 <= j < |items| && TextCode(items[j]) && ClaimKey(items[j], repr) == ClaimKey(items[i], repr);
    KeyMeansClaim(items[j], fs[k], repr);
  }

  lemma ClaimEntered(items: seq<Json>, fs: seq<NativeEntry>, repr: Json -> string, scope: Scope, sev: Severity,
                     code: string, i: nat)
    requires multiset(ClaimKeys(items, repr)) == multiset(EntryKeys(fs)) && i < |items|
    requires items[i].Obj? && Claims(items[i], scope == ActiveManifest, sev, code)
    ensures Occurs(fs, scope, sev, code)
  {
    hide ClaimKey, EntryKey, ClaimKeys, EntryKeys, IsActive, SeverityOf;
    var e := EntryMatches(items, fs, repr, i);
    KeyMeansClaim(items[i], e, repr);
    var k :| 0 <= k < |fs| && fs[k] == e;
    assert e.severity == sev && e.code == code && e.scope == scope;
  }

  // ----- claims whose code is no text -----

  function TextCodes(items: seq<Json>): nat {
    if items == [] then 0
    else TextCodes(items[..|items| - 1]) + if TextCode(items[|items| - 1]) then 1 else 0
  }

  lemma {:induction false} RereadLengths(items: seq<Json>)
    requires forall i :: 0 <= i < |items| ==> Usable(items[i])
    ensures |RereadAll(items, true)| + |RereadAll(items, false)| == TextCodes(items)
  {
    if items != [] {
      hide EntryOf, IsActive, SeverityOf, BucketEntries;
      var head, item := items[..|items| - 1], items[|items| - 1];
      RereadLengths(head);
      UsableObject(item);
      var active, sev := IsActive(item), SeverityOf(Get(item, "severity")).value;
      BucketAppend(BucketOf(head, active, sev), [EntryOf(item)], sev, ScopeOf(active));
      OneEntry(item, sev, ScopeOf(active));
    }
  }

  lemma {:induction false} AllCounted(items: seq<Json>)
    ensures TextCodes(items) <= |items|
    ensures TextCodes(items) == |items| <==> forall i :: 0 <= i < |items| ==> TextCode(items[i])
  {
    if items != [] {
      hide TextCode;
      AllCounted(items[..|items| - 1]);
      assert forall i :: 0 <= i < |items| - 1 ==> items[..|items| - 1][i] == items[i];
    }
  }

  /** For corresponding claims that do not raise, the rebuilt report holds as many findings as the
      retained one exactly when every claimed code is a text: the comparison goes through `str`,
      the rebuilt report's reader drops any other code. */
  lemma RebuiltCompleteExactly(claimed: Json, report: Json, state: Json, repr: Json -> string)
    requires claimed.Arr? && FindingsMismatch(claimed, report, repr) == None
    requires Rebuild(claimed, state).Some?
    ensures |ParseNativeReport(Rebuild(claimed, state).value)| == |ParseNativeReport(report)|
        <==> AllTextCodes(claimed)
  {
    hide ParseNativeReport, RebuiltReport, FindingsMismatch, Usable, UriClaims, UrlPool, TextCode, RereadAll;
    var items := claimed.items;
    MismatchExactly(claimed, report, repr);
    RebuiltRead(items, state);
    RereadLengths(items);
    AllCounted(items);
    assert |multiset(ClaimKeys(items, repr))| == |items|;
    assert |multiset(EntryKeys(ParseNativeReport(report)))| == |ParseNativeReport(report)|;
  }

  function OneFailure(code: Json): Json {
    Obj([Member("validation_results", Obj([Member("ingredientDeltas",
      Arr([Obj([Member("validationDeltas", Obj([Member("failure", Arr([Obj([Member("code", code)])]))]))])]))]))])
  }

  function OneClaim(code: Json): Json {
    Arr([Obj([Member("scope", Str("ingredientDeltas")), Member("severity", Str("failure")), Member("code", code)])])
  }

  /** What the two helpers alone would do with the number 5 claimed for the code "5": the claims
      correspond to the report, yet the failed ingredient axis is rebuilt as not evaluated. In the
      pipeline the profile's field schema refuses such a claim before anything is rebuilt. */
  lemma NumericCodeHidesFailure(tax: Taxonomy, repr: Json -> string)
    ensures var claimed, report := OneClaim(Int(5)), OneFailure(Str("5"));
      && FindingsMismatch(claimed, report, repr) == None
      && Rebuild(claimed, Null).Some?
      && CanonicalAxes(tax, ParseNativeReport(report))[7].status == Failed
      && CanonicalAxes(tax, ParseNativeReport(Rebuild(claimed, Null).value))[7].status == NotEvaluated
  {
    var claimed, report := OneClaim(Int(5)), OneFailure(Str("5"));
    var item := claimed.items[0];
    var ms := item.members;
    GetFirst(ms[0], [ms[1], ms[2]], "scope");
    GetFirst(ms[0], [ms[1], ms[2]], "severity");
    GetFirst(ms[1], [ms[2]], "severity");
    GetFirst(ms[0], [ms[1], ms[2]], "code");
    GetFirst(ms[1], [ms[2]], "code");
    GetFirst(ms[2], [], "code");
    GetFirst(ms[0], [ms[1], ms[2]], "uri");
    GetFirst(ms[1], [ms[2]], "uri");
    GetFirst(ms[2], [], "uri");
    var e := NativeEntry("5", Failure, IngredientDeltas, None, None);
    OneFailureRead();
    assert Get(item, "scope") == Str("ingredientDeltas") && Get(item, "severity") == Str("failure");
    assert Get(item, "code") == Int(5) && Get(item, "uri") == Null;
    FiveClaimed(claimed, report, repr, item, e);
    FiveRebuilt(tax, item, e);
  }

  lemma OneFailureRead()
    ensures ParseNativeReport(OneFailure(Str("5"))) == [NativeEntry("5", Failure, IngredientDeltas, None, None)]
  {
    var bucket := Arr([Obj([Member("code", Str("5"))])]);
    var m := Obj([Member("failure", bucket)]);
    assert m.members == m.members + [];
    OneDelta(m);
    GetFirst(Member("failure", bucket), [], "failure");
    GetFirst(Member("failure", bucket), [], "success");
    GetFirst(Member("failure", bucket), [], "informational");
    GetFirst(Member("code", Str("5")), [], "code");
    GetFirst(Member("code", Str("5")), [], "url");
    assert bucket.items[1..] == [];
    var e := NativeEntry("5", Failure, IngredientDeltas, None, None);
    assert BucketEntries(bucket.items, Failure, IngredientDeltas, None) == [e];
    assert SeverityMapEntries(m, IngredientDeltas, None) == [e];
    var report := OneFailure(Str("5"));
    var results := report.members[0].value;
    GetFirst(report.members[0], [], "validation_results");
    GetFirst(results.members[0], [], "activeManifest");
    GetFirst(results.members[0], [], "ingredientDeltas");
  }

  lemma FiveClaimed(claimed: Json, report: Json, repr: Json -> string, item: Json, e: NativeEntry)
    requires claimed == Arr([item]) && item.Obj?
    requires Get(item, "scope") == Str("ingredientDeltas") && Get(item, "severity") == Str("failure")
    requires Get(item, "code") == Int(5) && Get(item, "uri") == Null
    requires ParseNativeReport(report) == [e] && e == NativeEntry("5", Failure, IngredientDeltas, None, None)
    ensures FindingsMismatch(claimed, report, repr) == None
  {
    hide FindingsMismatch, ParseNativeReport;
    MismatchExactly(claimed, report, repr);
    assert Decimal(5) == "5";
    assert ClaimKeys([item], repr) == [EntryKey(e)] == EntryKeys([e]);
    assert [item][..0] == [];
    assert UriClaims([item], repr) == [];
  }

  lemma FiveRebuilt(tax: Taxonomy, item: Json, e: NativeEntry)
    requires item.Obj? && e == NativeEntry("5", Failure, IngredientDeltas, None, None)
    requires Get(item, "scope") == Str("ingredientDeltas") && Get(item, "severity") == Str("failure")
    requires Get(item, "code") == Int(5)
    ensures Rebuild(Arr([item]), Null) == Some(RebuiltReport([item], Null))
    ensures CanonicalAxes(tax, [e])[7].status == Failed
    ensures CanonicalAxes(tax, ParseNativeReport(RebuiltReport([item], Null)))[7].status == NotEvaluated
  {
    hide RebuiltReport, ParseNativeReport, AxisClass;
    PresentKey(item.members, "code");
    PresentKey(item.members, "scope");
    RebuiltRead([item], Null);
    RereadLengths([item]);
    assert TextCodes([item]) == 0 by { assert [item][..0] == []; }
    var es := ParseNativeReport(RebuiltReport([item], Null));
    assert es == [];
    assert AxisEntries(tax, es, Ingredient) == [];
    assert [e][..0] == [];
    assert AxisEntries(tax, [e], Ingredient) == [e];
    assert AXIS_ORDER[7] == Ingredient;
  }
}
