/** `c2pa_srs_observed.py`: matching a producer's claimed native findings with the retained native
    report, and rebuilding a report from the claims for the verifier's own normaliser. */
module C2paObserved {
  import opened JsonValue
  import opened PyText
  import opened Sorting
  import opened C2paNative

  /** `str(v)` of a parsed JSON value. `repr` gives the text of a list or dict after its opening
      bracket. */
  function PyStr(v: Json, repr: Json -> string): string {
    match v
    case Null => "None"
    case Bool(b) => if b then "True" else "False"
    case Int(n) => IntText(n)
    case Str(s) => s
    case Arr(_) => "[" + repr(v)
    case Obj(_) => "{" + repr(v)
  }

  datatype Key = Key(scope: string, severity: string, code: string)

  /** Python's order on tuples of three strings. */
  predicate KeyLe(a: Key, b: Key) {
    if a.scope != b.scope then StrLe(a.scope, b.scope)
    else if a.severity != b.severity then StrLe(a.severity, b.severity)
    else StrLe(a.code, b.code)
  }

  function EntryKey(e: NativeEntry): Key {
    Key(ScopeName(e.scope), SeverityName(e.severity), e.code)
  }

  function ClaimKey(item: Json, repr: Json -> string): Key {
    Key(PyStr(Get(item, "scope"), repr), PyStr(Get(item, "severity"), repr), PyStr(Get(item, "code"), repr))
  }

  function EntryKeys(es: seq<NativeEntry>): (r: seq<Key>)
    ensures |r| == |es| && forall i :: 0 <= i < |es| ==> r[i] == EntryKey(es[i])
  {
    seq(|es|, i requires 0 <= i < |es| => EntryKey(es[i]))
  }

  function ClaimKeys(items: seq<Json>, repr: Json -> string): (r: seq<Key>)
    ensures |r| == |items| && forall i :: 0 <= i < |items| ==> r[i] == ClaimKey(items[i], repr)
  {
    seq(|items|, i requires 0 <= i < |items| => ClaimKey(items[i], repr))
  }

  /** The non-null uris claimed, each with the key of its finding. */
  function UriClaims(items: seq<Json>, repr: Json -> string): seq<(Key, Json)> {
    if items == [] then []
    else
      var item := items[|items| - 1];
      var r := UriClaims(items[..|items| - 1], repr);
      if Get(item, "uri") == Null then r else r + [(ClaimKey(item, repr), Get(item, "uri"))]
  }

  function UrlJson(e: NativeEntry): Json {
    match e.url case Some(u) => Str(u) case None => Null
  }

  /** The urls the report carries, each with the key of its finding. */
  function UrlPool(es: seq<NativeEntry>): seq<(Key, Json)> {
    if es == [] then []
    else UrlPool(es[..|es| - 1]) + [(EntryKey(es[|es| - 1]), UrlJson(es[|es| - 1]))]
  }

  datatype Mismatch = NotAnObject | KeysDiffer | UriNotCarried

  function ClaimedItems(claimed: Json): seq<Json> { if claimed.Arr? then claimed.items else [] }

  function FindingsMismatch(claimed: Json, report: Json, repr: Json -> string): Option<Mismatch> {
    var items, es := ClaimedItems(claimed), ParseNativeReport(report);
    if exists i :: 0 <= i < |items| && !items[i].Obj? then Some(NotAnObject)
    else if Sort(ClaimKeys(items, repr), KeyLe) != Sort(EntryKeys(es), KeyLe) then Some(KeysDiffer)
    else if multiset(UriClaims(items, repr)) <= multiset(UrlPool(es)) then None
    else Some(UriNotCarried)
  }

  lemma KeyLePreorder()
    ensures Preorder(KeyLe)
  {
    forall x: Key, y: Key ensures KeyLe(x, y) || KeyLe(y, x) {
      StrLeTotal(x.scope, y.scope);
      StrLeTotal(x.severity, y.severity);
      StrLeTotal(x.code, y.code);
    }
    forall x: Key, y: Key, z: Key | KeyLe(x, y) && KeyLe(y, z) ensures KeyLe(x, z) {
      KeyLeTransitive(x, y, z);
    }
  }

  lemma KeyLeTransitive(x: Key, y: Key, z: Key)
    requires KeyLe(x, y) && KeyLe(y, z)
    ensures KeyLe(x, z)
  {
    hide StrLe;
    if x.scope == z.scope && x.scope != y.scope {
      StrLeAntisymmetric(x.scope, y.scope);
    } else if x.scope != z.scope {
      if x.scope != y.scope && y.scope != z.scope { StrLeTransitive(x.scope, y.scope, z.scope); }
    } else if x.severity == z.severity && x.severity != y.severity {
      StrLeAntisymmetric(x.severity, y.severity);
    } else if x.severity != z.severity {
      if x.severity != y.severity && y.severity != z.severity {
        StrLeTransitive(x.severity, y.severity, z.severity);
      }
    } else {
      StrLeTransitive(x.code, y.code, z.code);
    }
  }

  lemma KeyLeAntisymmetric(x: Key, y: Key)
    requires KeyLe(x, y) && KeyLe(y, x)
    ensures x == y
  {
    hide StrLe;
    if x.scope != y.scope { StrLeAntisymmetric(x.scope, y.scope); }
    if x.severity != y.severity { StrLeAntisymmetric(x.severity, y.severity); }
    StrLeAntisymmetric(x.code, y.code);
  }

  /** Nothing is reported exactly when every claim is an object, the (scope, severity, code)
      triples agree as multisets, and per triple the claimed uris are among the report's urls,
      each used once. */
  lemma MismatchExactly(claimed: Json, report: Json, repr: Json -> string)
    ensures var items, es := ClaimedItems(claimed), ParseNativeReport(report);
      FindingsMismatch(claimed, report, repr) == None <==>
        && (forall i :: 0 <= i < |items| ==> items[i].Obj?)
        && multiset(ClaimKeys(items, repr)) == multiset(EntryKeys(es))
        && multiset(UriClaims(items, repr)) <= multiset(UrlPool(es))
  {
    hide KeyLe, ParseNativeReport, UriClaims, UrlPool, ClaimKeys, EntryKeys, Sort;
    var xs, ys := ClaimKeys(ClaimedItems(claimed), repr), EntryKeys(ParseNativeReport(report));
    KeyLePreorder();
    forall x, y | x in xs && y in xs && KeyLe(x, y) && KeyLe(y, x) ensures x == y {
      KeyLeAntisymmetric(x, y);
    }
    SortForgetsOrder(xs, ys, KeyLe);
  }

  // ----- the loops -----

  function RemoveFirst(xs: seq<Json>, x: Json): (r: seq<Json>)
    requires x in xs
    ensures multiset(r) == multiset(xs) - multiset{x}
  {
    assert xs == [xs[0]] + xs[1..];
    if xs[0] == x then xs[1..] else [xs[0]] + RemoveFirst(xs[1..], x)
  }

  /** The pools hold exactly the pairs of `pairs`. */
  ghost predicate Holds(pools: map<Key, seq<Json>>, pairs: multiset<(Key, Json)>) {
    forall k, u :: HeldAt(pools, pairs, k, u)
  }

  ghost predicate HeldAt(pools: map<Key, seq<Json>>, pairs: multiset<(Key, Json)>, k: Key, u: Json) {
    pairs[(k, u)] == if k in pools then multiset(pools[k])[u] else 0
  }

  lemma HoldsAdd(pools: map<Key, seq<Json>>, pairs: multiset<(Key, Json)>, k: Key, u: Json)
    requires Holds(pools, pairs)
    ensures Holds(pools[k := (if k in pools then pools[k] else []) + [u]], pairs + multiset{(k, u)})
  {
    var after := pools[k := (if k in pools then pools[k] else []) + [u]];
    forall k', u' ensures HeldAt(after, pairs + multiset{(k, u)}, k', u') {
      assert HeldAt(pools, pairs, k', u');
      if k' != k { assert k' in after <==> k' in pools; }
    }
  }

  lemma HoldsRemove(pools: map<Key, seq<Json>>, pairs: multiset<(Key, Json)>, k: Key, u: Json)
    requires Holds(pools, pairs) && k in pools && u in pools[k]
    ensures (k, u) in pairs
    ensures Holds(pools[k := RemoveFirst(pools[k], u)], pairs - multiset{(k, u)})
  {
    var pool := RemoveFirst(pools[k], u);
    var after := pools[k := pool];
    assert multiset(pool) == multiset(pools[k]) - multiset{u};
    hide RemoveFirst;
    assert u in multiset(pools[k]) && HeldAt(pools, pairs, k, u);
    forall k', u' ensures HeldAt(after, pairs - multiset{(k, u)}, k', u') {
      assert HeldAt(pools, pairs, k', u');
      if k' != k { assert k' in after <==> k' in pools; }
    }
  }

  method BuildPools(es: seq<NativeEntry>) returns (pools: map<Key, seq<Json>>)
    ensures Holds(pools, multiset(UrlPool(es)))
  {
    hide Holds;
    pools := map[];
    EmptyPools();
    for i := 0 to |es|
      invariant Holds(pools, multiset(UrlPool(es[..i])))
    {
      var k, u := EntryKey(es[i]), UrlJson(es[i]);
      assert es[..i + 1][..i] == es[..i] && es[..i + 1][i] == es[i];
      assert multiset(UrlPool(es[..i + 1])) == multiset(UrlPool(es[..i])) + multiset{(k, u)};
      HoldsAdd(pools, multiset(UrlPool(es[..i])), k, u);
      pools := pools[k := (if k in pools then pools[k] else []) + [u]];
    }
    assert es[..|es|] == es;
  }

  lemma EmptyPools()
    ensures Holds(map[], multiset{})
  {}

  lemma ClaimsStep(items: seq<Json>, i: nat, repr: Json -> string)
    requires i < |items|
    ensures var uri, before := Get(items[i], "uri"), multiset(UriClaims(items[..i], repr));
      multiset(UriClaims(items[..i + 1], repr))
      == if uri == Null then before else before + multiset{(ClaimKey(items[i], repr), uri)}
  {
    hide ClaimKey;
    assert items[..i + 1][..i] == items[..i] && items[..i + 1][i] == items[i];
  }

  lemma NotHeld(pools: map<Key, seq<Json>>, pairs: multiset<(Key, Json)>, k: Key, u: Json)
    requires Holds(pools, pairs) && (k !in pools || u !in pools[k])
    ensures (k, u) !in pairs
  {
    assert HeldAt(pools, pairs, k, u);
  }

  method CheckUris(items: seq<Json>, es: seq<NativeEntry>, repr: Json -> string) returns (ok: bool)
    ensures ok == (multiset(UriClaims(items, repr)) <= multiset(UrlPool(es)))
  {
    hide ClaimKey, UriClaims, UrlPool, Holds;
    var pools := BuildPools(es);
    ghost var all := multiset(UrlPool(es));
    NoClaims(items, repr);
    assert all - multiset{} == all;
    for i := 0 to |items|
      invariant multiset(UriClaims(items[..i], repr)) <= all
      invariant Holds(pools, all - multiset(UriClaims(items[..i], repr)))
    {
      var uri := Get(items[i], "uri");
      ghost var before := multiset(UriClaims(items[..i], repr));
      ClaimsStep(items, i, repr);
      if uri != Null {
        var k := ClaimKey(items[i], repr);
        var pool := if k in pools then pools[k] else [];
        if uri !in pool {
          NotHeld(pools, all - before, k, uri);
          ClaimsGrow(items, i + 1, repr);
          Uncarried(all, before, multiset(UriClaims(items, repr)), (k, uri));
          return false;
        }
        HoldsRemove(pools, all - before, k, uri);
        Carried(all, before, (k, uri));
        pools := pools[k := RemoveFirst(pool, uri)];
      }
    }
    assert items[..|items|] == items;
    return true;
  }

  lemma Uncarried<T>(all: multiset<T>, before: multiset<T>, after: multiset<T>, x: T)
    requires x !in all - before && before + multiset{x} <= after
    ensures !(after <= all)
  {
    assert all[x] <= before[x] && after[x] > before[x];
  }

  lemma Carried<T>(all: multiset<T>, before: multiset<T>, x: T)
    requires before <= all && x in all - before
    ensures before + multiset{x} <= all
    ensures all - before - multiset{x} == all - (before + multiset{x})
  {}

  lemma NoClaims(items: seq<Json>, repr: Json -> string)
    ensures UriClaims(items[..0], repr) == []
  {}

  lemma {:induction false} ClaimsGrow(items: seq<Json>, i: nat, repr: Json -> string)
    requires i <= |items|
    ensures multiset(UriClaims(items[..i], repr)) <= multiset(UriClaims(items, repr))
    decreases |items|
  {
    if i == |items| {
      assert items[..i] == items;
    } else {
      var head := items[..|items| - 1];
      assert head[..i] == items[..i];
      ClaimsGrow(head, i, repr);
    }
  }

  method CollectKeys(items: seq<Json>, repr: Json -> string) returns (r: Option<seq<Key>>)
    ensures r.Some? <==> forall j :: 0 <= j < |items| ==> items[j].Obj?
    ensures r.Some? ==> r.value == ClaimKeys(items, repr)
  {
    hide ClaimKey;
    var keys: seq<Key> := [];
    for i := 0 to |items|
      invariant forall j :: 0 <= j < i ==> items[j].Obj?
      invariant keys == ClaimKeys(items, repr)[..i]
    {
      if !items[i].Obj? { return None; }
      keys := keys + [ClaimKey(items[i], repr)];
    }
    assert keys == ClaimKeys(items, repr);
    return Some(keys);
  }

  lemma MismatchSteps(claimed: Json, report: Json, repr: Json -> string)
    ensures var items, es := ClaimedItems(claimed), ParseNativeReport(report);
      FindingsMismatch(claimed, report, repr) ==
        if !(forall j :: 0 <= j < |items| ==> items[j].Obj?) then Some(NotAnObject)
        else if Sort(ClaimKeys(items, repr), KeyLe) != Sort(EntryKeys(es), KeyLe) then Some(KeysDiffer)
        else if multiset(UriClaims(items, repr)) <= multiset(UrlPool(es)) then None else Some(UriNotCarried)
  {
    hide ParseNativeReport, UriClaims, UrlPool, KeyLe, Sort, ClaimKeys, EntryKeys;
  }

  method CheckFindings(claimed: Json, report: Json, repr: Json -> string) returns (r: Option<Mismatch>)
    ensures r == FindingsMismatch(claimed, report, repr)
  {
    hide *;
    MismatchSteps(claimed, report, repr);
    var entries := ParseNativeReport(report);
    var items := ClaimedItems(claimed);
    var collected := CollectKeys(items, repr);
    if collected.None? { return Some(NotAnObject); }
    var keys := collected.value;
    if Sort(keys, KeyLe) != Sort(EntryKeys(entries), KeyLe) { return Some(KeysDiffer); }
    var carried := CheckUris(items, entries, repr);
    return if carried then None else Some(UriNotCarried);
  }
}
