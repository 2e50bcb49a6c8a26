/** What the stages before the comparison guarantee together: the profile's field schema stands between
    matching a producer's findings with the retained report and rebuilding a report from them. */
module C2paConsumed {
  import opened JsonValue
  import opened C2paNative
  import opened C2paObserved
  import opened C2paRebuild

  // ----- the field schema of native findings -----

  predicate NonEmptyText(j: Json) { j.Str? && j.s != [] }

  predicate FindingKey(k: string) { k == "scope" || k == "severity" || k == "code" || k == "uri" }

  /** One item of `native_findings` as the profile's field schema demands it. */
  predicate SchemaFinding(item: Json) {
    && item.Obj?
    && (forall m :: m in item.members ==> FindingKey(m.key))
    && (Get(item, "scope") == Str("activeManifest") || Get(item, "scope") == Str("ingredientDeltas"))
    && SeverityOf(Get(item, "severity")).Some?
    && NonEmptyText(Get(item, "code"))
    && (HasKey(item.members, "uri") ==> NonEmptyText(Get(item, "uri")))
  }

  predicate SchemaFindings(claimed: Json) {
    claimed.Arr? && forall i :: 0 <= i < |claimed.items| ==> SchemaFinding(claimed.items[i])
  }

  function ClaimedFindings(obs: Json): Json { Get(obs, "native_findings") }

  /** The schema's verdict on the field of a whole observation, where it is optional. */
  predicate FindingsAdmitted(obs: Json) {
    obs.Obj? && (HasKey(obs.members, "native_findings") ==> SchemaFindings(ClaimedFindings(obs)))
  }

  lemma {:induction false} MissingKey(ms: seq<Member>, k: string)
    ensures !HasKey(ms, k) ==> Lookup(ms, k) == Null
  {
    if ms != [] { MissingKey(ms[1..], k); }
  }

  /** A claim an admitted observation makes: none, or a list the schema accepts. */
  lemma AdmittedClaims(obs: Json)
    requires FindingsAdmitted(obs)
    ensures ClaimedFindings(obs) == Null || SchemaFindings(ClaimedFindings(obs))
  {
    MissingKey(obs.members, "native_findings");
  }

  lemma SchemaFindingUsable(item: Json)
    requires SchemaFinding(item)
    ensures Usable(item) && TextCode(item)
  {
    PresentKey(item.members, "code");
    PresentKey(item.members, "scope");
  }

  /** Admitted claims can always be rebuilt. */
  lemma AdmittedRebuilds(claimed: Json, state: Json)
    requires claimed == Null || SchemaFindings(claimed)
    ensures Rebuild(claimed, state).Some? && AllTextCodes(claimed)
  {
    hide Usable, TextCode, SchemaFinding, RebuiltReport;
    if claimed.Arr? {
      forall i | 0 <= i < |claimed.items| ensures Usable(claimed.items[i]) && TextCode(claimed.items[i]) {
        SchemaFindingUsable(claimed.items[i]);
      }
    }
  }

  // ----- agreement on the axes -----

  /** The two lists of entries give one axis the same status and reproducibility class. */
  ghost predicate AxisAgrees(tax: Taxonomy, es: seq<NativeEntry>, fs: seq<NativeEntry>, i: nat)
    requires i < |AXIS_ORDER|
  {
    var a, b := CanonicalAxes(tax, es)[i], CanonicalAxes(tax, fs)[i];
    a.axis == b.axis && a.status == b.status && a.reproducibilityClass == b.reproducibilityClass
  }

  ghost predicate AxesAgree(tax: Taxonomy, es: seq<NativeEntry>, fs: seq<NativeEntry>) {
    (forall i :: 0 <= i < |AXIS_ORDER| ==> AxisAgrees(tax, es, fs, i)) && Anchored(es) == Anchored(fs)
  }

  /** For every claim the profile admits: when it matches the retained report, it can be rebuilt, the
      rebuilt report has as many entries, and both normalise to the same status and class on all
      eight axes and to the same clock anchor. */
  lemma ConsumedAxesAgree(tax: Taxonomy, claimed: Json, report: Json, state: Json, repr: Json -> string)
    requires claimed == Null || SchemaFindings(claimed)
    requires FindingsMismatch(claimed, report, repr) == None
    ensures Rebuild(claimed, state).Some?
    ensures var es, fs := ParseNativeReport(Rebuild(claimed, state).value), ParseNativeReport(report);
      |es| == |fs| && AxesAgree(tax, es, fs)
  {
    hide SchemaFindings, FindingsMismatch, Rebuild, AllTextCodes, ParseNativeReport, CanonicalAxes, Anchored,
         Twinned, AxisAgrees;
    AdmittedRebuilds(claimed, state);
    if claimed == Null {
      NothingClaimed(claimed, report, state, repr);
      SameAxes(tax, []);
    } else {
      ListClaimed(claimed);
      TextClaimsUsable(claimed, report, state, repr);
      RebuiltCompleteExactly(claimed, report, state, repr);
      RebuiltAxes(tax, claimed, report, state, repr);
    }
  }

  lemma ListClaimed(claimed: Json)
    requires SchemaFindings(claimed)
    ensures claimed.Arr?
  {}

  lemma SameAxes(tax: Taxonomy, es: seq<NativeEntry>)
    ensures AxesAgree(tax, es, es)
  {}

  lemma RebuiltAxes(tax: Taxonomy, claimed: Json, report: Json, state: Json, repr: Json -> string)
    requires FindingsMismatch(claimed, report, repr) == None && claimed.Arr?
    requires Rebuild(claimed, state).Some? && Twinned(claimed, repr)
    ensures AxesAgree(tax, ParseNativeReport(Rebuild(claimed, state).value), ParseNativeReport(report))
  {
    hide FindingsMismatch, Rebuild, ParseNativeReport, CanonicalAxes, Anchored, Twinned;
    RebuiltAxesAgree(tax, claimed, report, state, repr);
  }

  /** Claiming nothing matches only a report without findings. */
  lemma NothingClaimed(claimed: Json, report: Json, state: Json, repr: Json -> string)
    requires claimed == Null && FindingsMismatch(claimed, report, repr) == None
    ensures ParseNativeReport(report) == []
    ensures Rebuild(claimed, state).Some? && ParseNativeReport(Rebuild(claimed, state).value) == []
  {
    MismatchExactly(claimed, report, repr);
    RebuiltRead([], state);
    hide ParseNativeReport, RebuiltReport, FindingsMismatch, UriClaims, UrlPool;
    var fs := ParseNativeReport(report);
    assert ClaimKeys(ClaimedItems(claimed), repr) == [];
    assert |multiset(EntryKeys(fs))| == 0;
  }

  // ----- the helpers alone, without the schema between them -----

  /** The entries of the claims with a textual code. */
  function TextualEntries(items: seq<Json>): seq<NativeEntry>
    requires forall i :: 0 <= i < |items| ==> Usable(items[i])
  {
    if items == [] then []
    else
      var item := items[|items| - 1];
      TextualEntries(items[..|items| - 1])
      + if TextCode(item) then [EntryFor(item, Get(item, "code").s)] else []
  }

  /** The entries of all claims, their codes spelled by `str`. */
  function SpelledEntries(items: seq<Json>, repr: Json -> string): seq<NativeEntry>
    requires forall i :: 0 <= i < |items| ==> Usable(items[i])
  {
    if items == [] then []
    else
      var item := items[|items| - 1];
      SpelledEntries(items[..|items| - 1], repr) + [EntryFor(item, PyStr(Get(item, "code"), repr))]
  }

  function EntryFor(item: Json, code: string): NativeEntry
    requires Usable(item)
  {
    NativeEntry(code, SeverityOf(Get(item, "severity")).value, ScopeOf(IsActive(item)), None, None)
  }

  /** The claim, spelled by `str`, is of this scope, severity and code. */
  predicate Spells(item: Json, active: bool, sev: Severity, code: string, repr: Json -> string) {
    && item.Obj? && IsActive(item) == active && SeverityOf(Get(item, "severity")) == Some(sev)
    && PyStr(Get(item, "code"), repr) == code
  }

  lemma OneOccurs(e: NativeEntry, scope: Scope, sev: Severity, code: string)
    ensures Occurs([e], scope, sev, code) <==> e.scope == scope && e.severity == sev && e.code == code
  {
    assert [e][0] == e;
  }

  lemma {:induction false} TextualOccurs(items: seq<Json>, active: bool, sev: Severity, code: string)
    requires forall i :: 0 <= i < |items| ==> Usable(items[i])
    ensures Occurs(TextualEntries(items), ScopeOf(active), sev, code)
       <==> exists i :: 0 <= i < |items| && Claims(items[i], active, sev, code)
  {
    if items != [] {
      var head, item := items[..|items| - 1], items[|items| - 1];
      TextualOccurs(head, active, sev, code);
      LastClaim(items, active, sev, code);
      UsableObject(item);
      var last := if TextCode(item) then [EntryFor(item, Get(item, "code").s)] else [];
      OccursAppend(TextualEntries(head), last, ScopeOf(active), sev, code);
      if TextCode(item) { OneOccurs(last[0], ScopeOf(active), sev, code); }
      hide IsActive, SeverityOf, Occurs;
    }
  }

  lemma {:induction false} SpelledOccurs(items: seq<Json>, active: bool, sev: Severity, code: string, repr: Json -> string)
    requires forall i :: 0 <= i < |items| ==> Usable(items[i])
    ensures Occurs(SpelledEntries(items, repr), ScopeOf(active), sev, code)
       <==> exists i :: 0 <= i < |items| && Spells(items[i], active, sev, code, repr)
  {
    if items != [] {
      var head, item := items[..|items| - 1], items[|items| - 1];
      hide IsActive, SeverityOf, Occurs, PyStr, Spells;
      SpelledOccurs(head, active, sev, code, repr);
      LastSpells(items, active, sev, code, repr);
      var last := EntryFor(item, PyStr(Get(item, "code"), repr));
      OccursAppend(SpelledEntries(head, repr), [last], ScopeOf(active), sev, code);
      LastEntry(item, active, sev, code, repr);
    }
  }

  lemma LastEntry(item: Json, active: bool, sev: Severity, code: string, repr: Json -> string)
    requires Usable(item)
    ensures Occurs([EntryFor(item, PyStr(Get(item, "code"), repr))], ScopeOf(active), sev, code)
       <==> Spells(item, active, sev, code, repr)
  {
    UsableObject(item);
    OneOccurs(EntryFor(item, PyStr(Get(item, "code"), repr)), ScopeOf(active), sev, code);
    hide IsActive, SeverityOf, Occurs, PyStr;
  }

  lemma LastSpells(items: seq<Json>, active: bool, sev: Severity, code: string, repr: Json -> string)
    requires items != []
    ensures var head, item := items[..|items| - 1], items[|items| - 1];
      (exists i :: 0 <= i < |items| && Spells(items[i], active, sev, code, repr)) <==>
        (exists i :: 0 <= i < |head| && Spells(head[i], active, sev, code, repr)) || Spells(item, active, sev, code, repr)
  {
    hide Spells;
    var head := items[..|items| - 1];
    if i :| 0 <= i < |items| && Spells(items[i], active, sev, code, repr) {
      if i < |head| { assert head[i] == items[i]; }
    }
    if i :| 0 <= i < |head| && Spells(head[i], active, sev, code, repr) { assert head[i] == items[i]; }
  }

  /** A claim with the key of an entry spells that entry. */
  lemma KeySpells(item: Json, e: NativeEntry, repr: Json -> string)
    requires item.Obj? && ClaimKey(item, repr) == EntryKey(e)
    ensures Spells(item, e.scope == ActiveManifest, e.severity, e.code, repr)
  {
    OnlyTextSpells(Get(item, "scope"), ScopeName(e.scope), repr);
    OnlyTextSpells(Get(item, "severity"), SeverityName(e.severity), repr);
  }

  /** A matching report has the findings the claims spell. */
  lemma ReportSpelled(items: seq<Json>, fs: seq<NativeEntry>, repr: Json -> string)
    requires multiset(ClaimKeys(items, repr)) == multiset(EntryKeys(fs))
    requires forall i :: 0 <= i < |items| ==> Usable(items[i])
    ensures SameFindings(fs, SpelledEntries(items, repr))
  {
    hide *;
    forall scope, sev, code ensures Occurs(fs, scope, sev, code) <==> Occurs(SpelledEntries(items, repr), scope, sev, code) {
      OneSpelled(items, fs, repr, scope, sev, code);
    }
    SameMeans(fs, SpelledEntries(items, repr));
  }

  lemma SameMeans(es: seq<NativeEntry>, fs: seq<NativeEntry>)
    requires forall scope, sev, code :: Occurs(es, scope, sev, code) <==> Occurs(fs, scope, sev, code)
    ensures SameFindings(es, fs)
  {
    hide Occurs;
  }

  lemma OneSpelled(items: seq<Json>, fs: seq<NativeEntry>, repr: Json -> string, scope: Scope, sev: Severity,
                   code: string)
    requires multiset(ClaimKeys(items, repr)) == multiset(EntryKeys(fs))
    requires forall i :: 0 <= i < |items| ==> Usable(items[i])
    ensures Occurs(fs, scope, sev, code) <==> Occurs(SpelledEntries(items, repr), scope, sev, code)
  {
    hide ClaimKey, ClaimKeys, EntryKeys, Spells, SpelledEntries, Usable, Occurs;
    var active := scope == ActiveManifest;
    SpelledOccurs(items, active, sev, code, repr);
    if Occurs(fs, scope, sev, code) {
      var i := FindingClaimed(items, fs, repr, scope, sev, code);
      assert Spells(items[i], active, sev, code, repr);
    }
    if i :| 0 <= i < |items| && Spells(items[i], active, sev, code, repr) {
      UsableObject(items[i]);
      SpelledEntered(items, fs, repr, scope, sev, code, i);
    }
  }

  lemma FindingClaimed(items: seq<Json>, fs: seq<NativeEntry>, repr: Json -> string, scope: Scope, sev: Severity,
                       code: string) returns (i: nat)
    requires multiset(ClaimKeys(items, repr)) == multiset(EntryKeys(fs)) && Occurs(fs, scope, sev, code)
    requires forall i :: 0 <= i < |items| ==> Usable(items[i])
    ensures i < |items| && Spells(items[i], scope == ActiveManifest, sev, code, repr)
  {
    hide ClaimKey, EntryKey, ClaimKeys, EntryKeys, Spells;
    var k :| 0 <= k < |fs| && fs[k].scope == scope && fs[k].severity == sev && fs[k].code == code;
    i := ClaimMatches(items, fs, repr, fs[k]);
    KeySpells(items[i], fs[k], repr);
  }

  lemma SpelledEntered(items: seq<Json>, fs: seq<NativeEntry>, repr: Json -> string, scope: Scope, sev: Severity,
                       code: string, i: nat)
    requires multiset(ClaimKeys(items, repr)) == multiset(EntryKeys(fs)) && i < |items|
    requires items[i].Obj? && Spells(items[i], scope == ActiveManifest, sev, code, repr)
    ensures Occurs(fs, scope, sev, code)
  {
    hide ClaimKey, EntryKey, ClaimKeys, EntryKeys, IsActive, SeverityOf;
    var e := EntryMatches(items, fs, repr, i);
    KeySpells(items[i], e, repr);
    var k :| 0 <= k < |fs| && fs[k] == e;
    assert e.severity == sev && e.code == code && e.scope == scope;
  }

  lemma RebuiltTextual(items: seq<Json>, state: Json)
    requires forall i :: 0 <= i < |items| ==> Usable(items[i])
    ensures SameFindings(ParseNativeReport(RebuiltReport(items, state)), TextualEntries(items))
  {
    hide ParseNativeReport, RebuiltReport, Claims, Usable, Occurs, TextualEntries;
    forall scope, sev, code
      ensures Occurs(ParseNativeReport(RebuiltReport(items, state)), scope, sev, code)
         <==> Occurs(TextualEntries(items), scope, sev, code)
    {
      RebuiltOccurs(items, state, scope == ActiveManifest, sev, code);
      TextualOccurs(items, scope == ActiveManifest, sev, code);
    }
  }

  /** For matching claims that can be rebuilt, whatever their codes, the rebuilt report and the
      retained one agree on an axis exactly when the claims with textual codes give it the same
      status and class as all claims do. */
  lemma RebuiltAxisExactly(tax: Taxonomy, claimed: Json, report: Json, state: Json, repr: Json -> string, i: nat)
    requires claimed.Arr? && FindingsMismatch(claimed, report, repr) == None
    requires Rebuild(claimed, state).Some? && i < |AXIS_ORDER|
    ensures forall j :: 0 <= j < |claimed.items| ==> Usable(claimed.items[j])
    ensures AxisAgrees(tax, ParseNativeReport(Rebuild(claimed, state).value), ParseNativeReport(report), i)
       <==> AxisAgrees(tax, TextualEntries(claimed.items), SpelledEntries(claimed.items, repr), i)
  {
    MismatchExactly(claimed, report, repr);
    hide ParseNativeReport, RebuiltReport, FindingsMismatch, UriClaims, UrlPool, Usable, SameFindings, CanonicalAxes,
         TextualEntries, SpelledEntries, ClaimKeys, EntryKeys;
    var items, fs := claimed.items, ParseNativeReport(report);
    var es := ParseNativeReport(RebuiltReport(items, state));
    RebuiltTextual(items, state);
    ReportSpelled(items, fs, repr);
    AxesDependOnFindings(tax, es, TextualEntries(items));
    AxesDependOnFindings(tax, fs, SpelledEntries(items, repr));
  }
}
