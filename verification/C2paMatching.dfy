/** `c2pa_srs_observed.py`: when a producer's claims match the retained report, which of them are admitted
    and which can be rebuilt, told by the claims' own members. */
module C2paMatching {
  import opened JsonValue
  import opened PyText
  import opened Sorting
  import opened C2paNative
  import opened C2paObserved
  import C2paRebuild
  import C2paConsumed

  // ----- spelling -----

  /** How `str` writes a value; `repr` writes lists and dicts after their opening bracket. */
  predicate Spelled(v: Json, s: string, repr: Json -> string) {
    match v
    case Null => s == "None"
    case Bool(b) => s == if b then "True" else "False"
    case Int(n) =>
      if n < 0 then |s| > 1 && s[0] == '-' && AllDigits(s[1..]) && s[1] != '0' && DigitsValue(s[1..]) == -n
      else |s| > 0 && AllDigits(s) && (s[0] == '0' ==> n == 0) && DigitsValue(s) == n
    case Str(t) => s == t
    case Arr(_) => s == ['['] + repr(v)
    case Obj(_) => s == ['{'] + repr(v)
  }

  lemma SpelledBy(v: Json, repr: Json -> string)
    ensures Spelled(v, PyStr(v, repr), repr)
  {
    if v.Int? { DecimalValue(if v.n < 0 then -v.n else v.n); }
  }

  // ----- matching -----

  /** The claim's scope, severity and code are spelled so. */
  predicate Says(item: Json, scope: string, severity: string, code: string, repr: Json -> string) {
    && PyStr(Get(item, "scope"), repr) == scope && PyStr(Get(item, "severity"), repr) == severity
    && PyStr(Get(item, "code"), repr) == code
  }

  /** The entry of the report has this scope, severity and code. */
  predicate Carries(e: NativeEntry, scope: string, severity: string, code: string) {
    && (match e.scope case ActiveManifest => scope == "activeManifest" case IngredientDeltas => scope == "ingredientDeltas")
    && (match e.severity
        case Success => severity == "success"
        case Informational => severity == "informational"
        case Failure => severity == "failure")
    && e.code == code
  }

  function Claiming(items: seq<Json>, k: Key, repr: Json -> string): set<nat> {
    set i | 0 <= i < |items| && Says(items[i], k.scope, k.severity, k.code, repr)
  }

  function Carrying(es: seq<NativeEntry>, k: Key): set<nat> {
    set i | 0 <= i < |es| && Carries(es[i], k.scope, k.severity, k.code)
  }

  function ClaimingUri(items: seq<Json>, k: Key, u: Json, repr: Json -> string): set<nat> {
    set i | 0 <= i < |items| && Says(items[i], k.scope, k.severity, k.code, repr) && Get(items[i], "uri") == u
  }

  function CarryingUrl(es: seq<NativeEntry>, k: Key, u: string): set<nat> {
    set i | 0 <= i < |es| && Carries(es[i], k.scope, k.severity, k.code) && es[i].url == Some(u)
  }

  /** Every triple is claimed as often as it is carried. */
  ghost predicate TriplesAgree(items: seq<Json>, es: seq<NativeEntry>, repr: Json -> string) {
    forall k :: |Claiming(items, k, repr)| == |Carrying(es, k)|
  }

  /** A uri claimed with a triple more often than it is carried with it. Anything but a text is carried
      nowhere; a null claims nothing. */
  ghost predicate Overclaimed(items: seq<Json>, es: seq<NativeEntry>, k: Key, u: Json, repr: Json -> string) {
    && u != Null
    && |ClaimingUri(items, k, u, repr)| > (if u.Str? then |CarryingUrl(es, k, u.s)| else 0)
  }

  function PlacesOf<T(==)>(xs: seq<T>, x: T): set<nat> { set i | 0 <= i < |xs| && xs[i] == x }

  lemma {:induction false} CountAt<T(!new)>(xs: seq<T>, x: T)
    ensures multiset(xs)[x] == |PlacesOf(xs, x)|
  {
    if xs == [] {
      assert PlacesOf(xs, x) == {};
    } else {
      var n := |xs| - 1;
      CountAt(xs[..n], x);
      assert PlacesOf(xs, x) == PlacesOf(xs[..n], x) + if xs[n] == x then {n} else {};
      assert xs == xs[..n] + [xs[n]];
    }
  }

  lemma ClaimsCounted(items: seq<Json>, k: Key, repr: Json -> string)
    ensures multiset(ClaimKeys(items, repr))[k] == |Claiming(items, k, repr)|
  {
    CountAt(ClaimKeys(items, repr), k);
    hide PyStr, Get;
    assert PlacesOf(ClaimKeys(items, repr), k) == Claiming(items, k, repr);
  }

  lemma EntriesCounted(es: seq<NativeEntry>, k: Key)
    ensures multiset(EntryKeys(es))[k] == |Carrying(es, k)|
  {
    CountAt(EntryKeys(es), k);
    forall i | 0 <= i < |es| ensures EntryKey(es[i]) == k <==> Carries(es[i], k.scope, k.severity, k.code) {
      CarriesExactly(es[i], k);
    }
    hide EntryKey, Carries;
    assert PlacesOf(EntryKeys(es), k) == Carrying(es, k);
  }

  lemma CarriesExactly(e: NativeEntry, k: Key)
    ensures EntryKey(e) == k <==> Carries(e, k.scope, k.severity, k.code)
  {}

  lemma UriStep(items: seq<Json>, p: (Key, Json), repr: Json -> string)
    requires items != []
    ensures var n := |items| - 1;
      multiset(UriClaims(items, repr))[p]
      == multiset(UriClaims(items[..n], repr))[p]
         + if Get(items[n], "uri") != Null && p == (ClaimKey(items[n], repr), Get(items[n], "uri")) then 1 else 0
  {
    hide ClaimKey, Get;
  }

  lemma OneMore(before: set<nat>, n: nat, more: bool, all: set<nat>)
    requires n !in before && all == before + if more then {n} else {}
    ensures |all| == |before| + if more then 1 else 0
  {}

  lemma {:induction false} UrisCounted(items: seq<Json>, k: Key, u: Json, repr: Json -> string)
    requires u != Null
    ensures multiset(UriClaims(items, repr))[(k, u)] == |ClaimingUri(items, k, u, repr)|
  {
    hide PyStr, Get, UriClaims;
    var all := ClaimingUri(items, k, u, repr);
    if items == [] {
      assert all == {};
      NoClaims(items, repr);
      assert items[..0] == items;
    } else {
      var n := |items| - 1;
      UrisCounted(items[..n], k, u, repr);
      UriStep(items, (k, u), repr);
      var item := items[n];
      var said := Says(item, k.scope, k.severity, k.code, repr) && Get(item, "uri") == u;
      assert said <==> ClaimKey(item, repr) == k && Get(item, "uri") == u;
      hide Says, ClaimKey;
      OneMore(ClaimingUri(items[..n], k, u, repr), n, said, all);
    }
  }

  lemma {:induction false} NullNotClaimed(items: seq<Json>, k: Key, repr: Json -> string)
    ensures (k, Null) !in UriClaims(items, repr)
  {
    hide ClaimKey, Get;
    if items != [] { NullNotClaimed(items[..|items| - 1], k, repr); }
  }

  lemma UrlStep(es: seq<NativeEntry>, p: (Key, Json))
    requires es != []
    ensures var n := |es| - 1;
      multiset(UrlPool(es))[p]
      == multiset(UrlPool(es[..n]))[p] + if p == (EntryKey(es[n]), UrlJson(es[n])) then 1 else 0
  {
    hide EntryKey;
  }

  lemma CarryingMore(es: seq<NativeEntry>, k: Key, u: string)
    requires es != []
    ensures var n := |es| - 1;
      |CarryingUrl(es, k, u)| == |CarryingUrl(es[..n], k, u)|
        + if Carries(es[n], k.scope, k.severity, k.code) && es[n].url == Some(u) then 1 else 0
  {
    hide Carries;
    var n := |es| - 1;
    var more := Carries(es[n], k.scope, k.severity, k.code) && es[n].url == Some(u);
    assert CarryingUrl(es, k, u) == CarryingUrl(es[..n], k, u) + if more then {n} else {};
  }

  lemma {:induction false} UrlsCounted(es: seq<NativeEntry>, k: Key, u: string)
    ensures multiset(UrlPool(es))[(k, Str(u))] == |CarryingUrl(es, k, u)|
  {
    if es == [] {
      assert CarryingUrl(es, k, u) == {};
    } else {
      var n := |es| - 1;
      UrlsCounted(es[..n], k, u);
      UrlStep(es, (k, Str(u)));
      CarriesExactly(es[n], k);
      hide Carries, EntryKey, UrlPool;
      CarryingMore(es, k, u);
    }
  }

  lemma {:induction false} TextUrls(es: seq<NativeEntry>, k: Key, u: Json)
    requires u != Null && !u.Str?
    ensures (k, u) !in UrlPool(es)
  {
    hide EntryKey;
    if es != [] { TextUrls(es[..|es| - 1], k, u); }
  }

  lemma TriplesExactly(items: seq<Json>, es: seq<NativeEntry>, repr: Json -> string)
    ensures multiset(ClaimKeys(items, repr)) == multiset(EntryKeys(es)) <==> TriplesAgree(items, es, repr)
  {
    forall k ensures multiset(ClaimKeys(items, repr))[k] == |Claiming(items, k, repr)|
             ensures multiset(EntryKeys(es))[k] == |Carrying(es, k)|
    {
      ClaimsCounted(items, k, repr);
      EntriesCounted(es, k);
    }
    hide Claiming, Carrying, ClaimKeys, EntryKeys;
    if TriplesAgree(items, es, repr) {
      assert forall k :: multiset(ClaimKeys(items, repr))[k] == multiset(EntryKeys(es))[k];
    } else {
      var k :| |Claiming(items, k, repr)| != |Carrying(es, k)|;
      assert multiset(ClaimKeys(items, repr))[k] != multiset(EntryKeys(es))[k];
    }
  }

  lemma UrisExactly(items: seq<Json>, es: seq<NativeEntry>, repr: Json -> string)
    ensures !(multiset(UriClaims(items, repr)) <= multiset(UrlPool(es))) <==>
      exists k, u :: Overclaimed(items, es, k, u, repr)
  {
    var claims, pool := multiset(UriClaims(items, repr)), multiset(UrlPool(es));
    forall k, u | u != Null ensures Overclaimed(items, es, k, u, repr) <==> claims[(k, u)] > pool[(k, u)] {
      UrisCounted(items, k, u, repr);
      if u.Str? { UrlsCounted(es, k, u.s); } else { TextUrls(es, k, u); }
    }
    if !(claims <= pool) {
      var p :| claims[p] > pool[p];
      if p.1 == Null { NullNotClaimed(items, p.0, repr); }
      assert p == (p.0, p.1);
      assert Overclaimed(items, es, p.0, p.1, repr);
    }
    if k, u :| Overclaimed(items, es, k, u, repr) {
      assert claims[(k, u)] > pool[(k, u)];
    }
  }

  /** Which mismatch is reported: a claim that is no dict before anything else, then triples that are not
      claimed as often as carried, then a uri claimed more often than carried. */
  lemma MismatchTold(claimed: Json, report: Json, repr: Json -> string)
    ensures var items, es := if claimed.Arr? then claimed.items else [], ParseNativeReport(report);
      var dicts := forall i :: 0 <= i < |items| ==> items[i].Obj?;
      && (FindingsMismatch(claimed, report, repr) == Some(NotAnObject) <==> !dicts)
      && (FindingsMismatch(claimed, report, repr) == Some(KeysDiffer) <==> dicts && !TriplesAgree(items, es, repr))
      && (FindingsMismatch(claimed, report, repr) == Some(UriNotCarried) <==>
          dicts && TriplesAgree(items, es, repr) && exists k, u :: Overclaimed(items, es, k, u, repr))
  {
    hide Overclaimed, TriplesAgree, ParseNativeReport, Sort, KeyLe, UriClaims, UrlPool, FindingsMismatch, ClaimKeys,
         EntryKeys, Preorder, AntisymmetricOn;
    var items, es := ClaimedItems(claimed), ParseNativeReport(report);
    MismatchSteps(claimed, report, repr);
    TriplesExactly(items, es, repr);
    UrisExactly(items, es, repr);
    KeyLePreorder();
    KeysTieFree(ClaimKeys(items, repr));
    SortForgetsOrder(ClaimKeys(items, repr), EntryKeys(es), KeyLe);
  }

  lemma KeysTieFree(ks: seq<Key>)
    ensures AntisymmetricOn(KeyLe, ks)
  {
    forall x, y | x in ks && y in ks && KeyLe(x, y) && KeyLe(y, x) ensures x == y { KeyLeAntisymmetric(x, y); }
  }

  // ----- admitting and rebuilding -----

  predicate GivenText(v: Json) { v.Str? && |v.s| > 0 }

  /** The four members, each with what the field schema asks of it. */
  predicate WellFormedClaim(item: Json) {
    && item.Obj?
    && (forall i :: 0 <= i < |item.members| ==>
          item.members[i].key == "scope" || item.members[i].key == "severity" || item.members[i].key == "code"
          || item.members[i].key == "uri")
    && (Get(item, "scope") == Str("activeManifest") || Get(item, "scope") == Str("ingredientDeltas"))
    && (Get(item, "severity") == Str("success") || Get(item, "severity") == Str("informational")
        || Get(item, "severity") == Str("failure"))
    && GivenText(Get(item, "code"))
    && (HasKey(item.members, "uri") ==> GivenText(Get(item, "uri")))
  }

  lemma AdmittedExactly(obs: Json)
    ensures C2paConsumed.FindingsAdmitted(obs) <==>
      && obs.Obj?
      && (HasKey(obs.members, "native_findings") ==>
            var claimed := Get(obs, "native_findings");
            claimed.Arr? && forall i :: 0 <= i < |claimed.items| ==> WellFormedClaim(claimed.items[i]))
  {
    forall item: Json ensures C2paConsumed.SchemaFinding(item) <==> WellFormedClaim(item) { ClaimAdmitted(item); }
    hide Get, HasKey, WellFormedClaim, C2paConsumed.SchemaFinding;
  }

  lemma ClaimAdmitted(item: Json)
    ensures C2paConsumed.SchemaFinding(item) <==> WellFormedClaim(item)
  {
    hide Get, HasKey;
  }

  /** Rebuilding fails on a value that can not be looped over, and on a claim that is no dict, lacks its
      code or scope, or is of no known severity; an empty value holds no claims. */
  lemma RebuildFailsExactly(claimed: Json, state: Json)
    ensures C2paRebuild.Rebuild(claimed, state).None? <==>
      match claimed
      case Null => false
      case Bool(b) => b
      case Int(n) => n != 0
      case Str(s) => |s| > 0
      case Obj(ms) => |ms| > 0
      case Arr(items) => exists i :: 0 <= i < |items| && Unusable(items[i])
  {
    forall item: Json ensures C2paRebuild.Usable(item) <==> !Unusable(item) { UsableExactly(item); }
    hide Unusable, C2paRebuild.Usable, C2paRebuild.RebuiltReport;
  }

  predicate Unusable(item: Json) {
    item.Obj? ==>
      || !HasKey(item.members, "code") || !HasKey(item.members, "scope")
      || (Get(item, "severity") != Str("success") && Get(item, "severity") != Str("informational")
          && Get(item, "severity") != Str("failure"))
  }

  lemma UsableExactly(item: Json)
    ensures C2paRebuild.Usable(item) <==> !Unusable(item)
  {
    hide Get, HasKey;
  }

  /** An entry is rebuilt with the claim's code, and with its uri as url. */
  lemma EntryTold(item: Json)
    requires item.Obj?
    ensures Get(C2paRebuild.EntryOf(item), "code") == Get(item, "code")
    ensures Get(C2paRebuild.EntryOf(item), "url") == Get(item, "uri")
    ensures forall m :: m in C2paRebuild.EntryOf(item).members ==> m.key == "code" || m.key == "url"
  {
    C2paConsumed.MissingKey(item.members, "uri");
    assert "code" != "url";
    C2paRebuild.GetFirst(Member("code", Get(item, "code")),
                         if HasKey(item.members, "uri") then [Member("url", Get(item, "uri"))] else [], "url");
    C2paRebuild.GetFirst(Member("code", Get(item, "code")),
                         if HasKey(item.members, "uri") then [Member("url", Get(item, "uri"))] else [], "code");
  }
}
