/** `scitt_registration.py`, `verify_registration`: the entry loop with its cache of evaluations, kept
    for one call. The evaluation of one entry, the digests and the loading of public keys are
    parameters; carriers arrive decoded. */
module ScittRegistration {
  import opened JsonValue
  import opened PyText
  import opened Sorting

  type Bytes = seq<nat>

  datatype Policy = Policy(id: string, accept: bool)

  /** A caller-selected key, as loaded: `der` is its public key, whatever text carried it. */
  datatype Key = Key(identity: string, der: Bytes, policy: Option<Policy>)

  datatype Selection = Selection(statementKey: Option<Key>, serviceKey: Option<Key>, proofIndex: nat)

  datatype KeyContext = KeyContext(identity: string, digest: string, policy: Option<Policy>)

  /** What varies in the context of an evaluation. */
  datatype Context = Context(statementIssuer: Option<KeyContext>, service: Option<KeyContext>, proofIndex: nat)

  datatype Identity = Identity(target: Option<string>, statement: string, receipt: string, context: string)

  datatype Result = Result(findings: map<string, string>, reasons: seq<string>, authenticated: Option<string>)

  /** An entry whose carried bytes were refused, or one with its selection and service hint. */
  datatype Entry =
    | Refused
    | Carried(statement: Bytes, receipt: Bytes, selection: Selection, hint: Option<string>)

  datatype Relationship =
    | BadCarrier(index: nat)
    | Evaluated(identity: Identity, key: string, context: Context, result: Result)

  datatype Observation = Observation(index: nat, key: Option<string>, duplicate: bool, serviceDisagrees: bool)

  datatype Oracles = Oracles(
    digest: Bytes -> string, contextDigest: Context -> string, identityDigest: Identity -> string,
    evaluate: (Option<Bytes>, Bytes, Bytes, Selection) -> Result)

  // ----- one entry evaluated afresh -----

  function KeyContextOf(o: Oracles, k: Option<Key>): Option<KeyContext> {
    match k
    case None => None
    case Some(key) => Some(KeyContext(key.identity, o.digest(key.der), key.policy))
  }

  function ContextOf(o: Oracles, s: Selection): Context {
    Context(KeyContextOf(o, s.statementKey), KeyContextOf(o, s.serviceKey), s.proofIndex)
  }

  function TargetDigest(o: Oracles, target: Option<Bytes>): Option<string> {
    match target case None => None case Some(t) => Some(o.digest(t))
  }

  function IdentityOf(o: Oracles, target: Option<Bytes>, e: Entry): Identity
    requires e.Carried?
  {
    Identity(TargetDigest(o, target), o.digest(e.statement), o.digest(e.receipt),
             o.contextDigest(ContextOf(o, e.selection)))
  }

  /** The evaluation of one entry without any cache. */
  function Fresh(o: Oracles, target: Option<Bytes>, entries: seq<Entry>, i: nat): (r: Relationship)
    requires i < |entries|
    ensures r.Evaluated? <==> entries[i].Carried?
    ensures r.BadCarrier? ==> r.index == i
  {
    match entries[i]
    case Refused => BadCarrier(i)
    case Carried(statement, receipt, selection, _) =>
      var identity := IdentityOf(o, target, entries[i]);
      Evaluated(identity, o.identityDigest(identity), ContextOf(o, selection),
                o.evaluate(target, statement, receipt, selection))
  }

  function ServiceDisagrees(hint: Option<string>, r: Result): bool {
    r.authenticated.Some? && r.authenticated.value != "" && hint.Some? && hint.value != "" && hint != r.authenticated
  }

  // ----- the reference: evaluate everything, then drop repetitions -----

  function Distinct(o: Oracles, target: Option<Bytes>, entries: seq<Entry>, n: nat): seq<Relationship>
    requires n <= |entries|
  {
    if n == 0 then []
    else
      var before, r := Distinct(o, target, entries, n - 1), Fresh(o, target, entries, n - 1);
      if Repeats(target, before, r) then before else before + [r]
  }

  /** With a target supplied, a relationship already listed is not listed again. */
  predicate Repeats(target: Option<Bytes>, before: seq<Relationship>, r: Relationship) {
    target.Some? && r in before
  }

  function ObservationOf(o: Oracles, target: Option<Bytes>, entries: seq<Entry>, i: nat): Observation
    requires i < |entries|
  {
    match Fresh(o, target, entries, i)
    case BadCarrier(_) => Observation(i, None, false, false)
    case Evaluated(_, key, _, result) =>
      Observation(i, Some(key), Repeats(target, Distinct(o, target, entries, i), Fresh(o, target, entries, i)),
                  ServiceDisagrees(entries[i].hint, result))
  }

  function SortKey(r: Relationship): string {
    match r case BadCarrier(i) => IntText(i) case Evaluated(_, key, _, _) => key
  }

  predicate ByKey(x: Relationship, y: Relationship) { StrLe(SortKey(x), SortKey(y)) }

  // ----- collisions -----

  predicate Apart<T(==)>(f: T -> string, x: T, y: T) { f(x) == f(y) ==> x == y }

  predicate KeysApart(o: Oracles, k: Option<Key>, l: Option<Key>) {
    k.Some? && l.Some? ==> Apart(o.digest, k.value.der, l.value.der)
  }

  /** No two values digested in this call collide. */
  ghost predicate CollisionFree(o: Oracles, target: Option<Bytes>, entries: seq<Entry>) {
    forall i, j :: 0 <= i < |entries| && 0 <= j < |entries| && entries[i].Carried? && entries[j].Carried? ==>
      PairApart(o, target, entries[i], entries[j])
  }

  predicate PairApart(o: Oracles, target: Option<Bytes>, x: Entry, y: Entry)
    requires x.Carried? && y.Carried?
  {
    && Apart(o.digest, x.statement, y.statement) && Apart(o.digest, x.receipt, y.receipt)
    && KeysApart(o, x.selection.statementKey, y.selection.statementKey)
    && KeysApart(o, x.selection.serviceKey, y.selection.serviceKey)
    && Apart(o.contextDigest, ContextOf(o, x.selection), ContextOf(o, y.selection))
    && Apart(o.identityDigest, IdentityOf(o, target, x), IdentityOf(o, target, y))
  }

  /** Entries with one evaluation key are evaluated alike. */
  lemma SameKeySameEvaluation(o: Oracles, target: Option<Bytes>, entries: seq<Entry>, i: nat, j: nat)
    requires CollisionFree(o, target, entries) && i < |entries| && j < |entries|
    requires entries[i].Carried? && entries[j].Carried?
    requires Fresh(o, target, entries, i).key == Fresh(o, target, entries, j).key
    ensures Fresh(o, target, entries, i) == Fresh(o, target, entries, j)
  {
    var x, y := entries[i], entries[j];
    assert PairApart(o, target, x, y);
    assert IdentityOf(o, target, x) == IdentityOf(o, target, y);
    assert x.statement == y.statement && x.receipt == y.receipt;
    assert ContextOf(o, x.selection) == ContextOf(o, y.selection);
    assert x.selection == y.selection;
  }

  lemma {:induction false} DistinctListed(o: Oracles, target: Option<Bytes>, entries: seq<Entry>, n: nat)
    requires n <= |entries|
    ensures forall j :: 0 <= j < n ==> Fresh(o, target, entries, j) in Distinct(o, target, entries, n)
    ensures forall r :: r in Distinct(o, target, entries, n) ==>
      exists j :: 0 <= j < n && Fresh(o, target, entries, j) == r
  {
    hide Fresh;
    if n > 0 { DistinctListed(o, target, entries, n - 1); }
  }

  lemma {:induction false} DistinctOnce(o: Oracles, target: Option<Bytes>, entries: seq<Entry>, n: nat)
    requires n <= |entries| && target.Some?
    ensures NoRepeats(Distinct(o, target, entries, n))
  {
    hide Fresh;
    if n > 0 { DistinctOnce(o, target, entries, n - 1); }
  }

  /** The number of duplicate observations among the first ones. */
  function Duplicates(obs: seq<Observation>): nat {
    if obs == [] then 0 else Duplicates(obs[..|obs| - 1]) + if obs[|obs| - 1].duplicate then 1 else 0
  }

  // ----- the loop -----

  /** The entry loop and its cache. The report is the one of evaluating every entry afresh, in which
      later repetitions are only noted, and the relationships are finally sorted by key. */
  method VerifyEntries(o: Oracles, target: Option<Bytes>, entries: seq<Entry>)
    returns (relationships: seq<Relationship>, observations: seq<Observation>)
    requires CollisionFree(o, target, entries)
    ensures relationships == Sort(Distinct(o, target, entries, |entries|), ByKey)
    ensures |observations| == |entries|
    ensures forall i :: 0 <= i < |entries| ==> observations[i] == ObservationOf(o, target, entries, i)
    ensures |relationships| + Duplicates(observations) == |entries|
  {
    hide CollisionFree, Fresh, ObservationOf;
    var results: map<string, Relationship> := map[];
    relationships, observations := [], [];
    for n := 0 to |entries|
      invariant relationships == Distinct(o, target, entries, n)
      invariant |observations| == n
      invariant forall i :: 0 <= i < n ==> observations[i] == ObservationOf(o, target, entries, i)
      invariant |relationships| + Duplicates(observations) == n
      invariant Cached(o, target, entries, n, results)
    {
      var observation: Observation;
      ghost var before := relationships;
      results, relationships, observation := EvaluateEntry(o, target, entries, n, results, relationships);
      observations := observations + [observation];
      assert observations[..n + 1][..n] == observations[..n];
      assert observations[..|observations| - 1] == observations[..n];
    }
    relationships := Sort(relationships, ByKey);
  }

  /** The cache holds what the carried entries so far evaluate to, under their keys. */
  ghost predicate Cached(o: Oracles, target: Option<Bytes>, entries: seq<Entry>, n: nat, results: map<string, Relationship>)
    requires n <= |entries|
  {
    && (forall j :: 0 <= j < n && entries[j].Carried? ==>
          Fresh(o, target, entries, j).key in results)
    && (forall k :: k in results ==>
          exists j :: 0 <= j < n && entries[j].Carried? && Fresh(o, target, entries, j).key == k
                      && results[k] == Fresh(o, target, entries, j))
  }

  /** One round of the loop. */
  method EvaluateEntry(o: Oracles, target: Option<Bytes>, entries: seq<Entry>, n: nat,
                       results: map<string, Relationship>, relationships: seq<Relationship>)
    returns (results': map<string, Relationship>, relationships': seq<Relationship>, observation: Observation)
    requires CollisionFree(o, target, entries) && n < |entries|
    requires Cached(o, target, entries, n, results) && relationships == Distinct(o, target, entries, n)
    ensures Cached(o, target, entries, n + 1, results') && relationships' == Distinct(o, target, entries, n + 1)
    ensures observation == ObservationOf(o, target, entries, n)
    ensures |relationships'| + (if observation.duplicate then 1 else 0) == |relationships| + 1
  {
    hide CollisionFree, Cached;
    if entries[n].Refused? {
      BadCarrierNew(o, target, entries, n);
      CacheKept(o, target, entries, n, results);
      results', relationships' := results, relationships + [BadCarrier(n)];
      observation := Observation(n, None, false, false);
      return;
    }
    var e := entries[n];
    var identity := IdentityOf(o, target, e);
    var key := o.identityDigest(identity);
    ghost var own := Fresh(o, target, entries, n);
    assert own.key == key;
    KnownKey(o, target, entries, n, results);
    CacheKept(o, target, entries, n, results);
    if target.Some? && key in results {
      var r := results[key];
      hide Fresh;
      results', relationships' := results, relationships;
      observation := Observation(n, Some(key), true, ServiceDisagrees(e.hint, r.result));
    } else {
      var r := Evaluated(identity, key, ContextOf(o, e.selection), o.evaluate(target, e.statement, e.receipt, e.selection));
      assert r == own;
      hide Fresh;
      results', relationships' := results[key := r], relationships + [r];
      observation := Observation(n, Some(key), false, ServiceDisagrees(e.hint, r.result));
    }
  }

  lemma BadCarrierNew(o: Oracles, target: Option<Bytes>, entries: seq<Entry>, n: nat)
    requires n < |entries| && entries[n].Refused?
    ensures BadCarrier(n) !in Distinct(o, target, entries, n) && Fresh(o, target, entries, n) == BadCarrier(n)
  {
    DistinctListed(o, target, entries, n);
  }

  /** The cache is right for one entry more, as it is when the entry brings nothing new to it, and
      with the entry's own evaluation put in. */
  lemma CacheKept(o: Oracles, target: Option<Bytes>, entries: seq<Entry>, n: nat, results: map<string, Relationship>)
    requires n < |entries| && Cached(o, target, entries, n, results)
    ensures entries[n].Refused? || Fresh(o, target, entries, n).key in results ==>
      Cached(o, target, entries, n + 1, results)
    ensures entries[n].Carried? ==>
      var own := Fresh(o, target, entries, n);
      Cached(o, target, entries, n + 1, results[own.key := own])
  {
    hide Fresh;
    if entries[n].Carried? {
      var own := Fresh(o, target, entries, n);
      var more := results[own.key := own];
      forall k | k in more
        ensures exists j :: 0 <= j < n + 1 && entries[j].Carried? && Fresh(o, target, entries, j).key == k
                            && more[k] == Fresh(o, target, entries, j)
      {
        if k == own.key {
          assert more[k] == Fresh(o, target, entries, n);
        } else {
          var j :| 0 <= j < n && entries[j].Carried? && Fresh(o, target, entries, j).key == k
                   && results[k] == Fresh(o, target, entries, j);
          assert more[k] == Fresh(o, target, entries, j);
        }
      }
    }
  }

  /** The key is known exactly when the evaluation repeats an earlier one, and then the cache holds
      that evaluation. */
  lemma KnownKey(o: Oracles, target: Option<Bytes>, entries: seq<Entry>, n: nat, results: map<string, Relationship>)
    requires CollisionFree(o, target, entries) && n < |entries| && entries[n].Carried?
    requires Cached(o, target, entries, n, results)
    ensures var own := Fresh(o, target, entries, n);
      && (own.key in results <==> own in Distinct(o, target, entries, n))
      && (own.key in results ==> results[own.key] == own)
  {
    hide Fresh, CollisionFree, Distinct;
    DistinctListed(o, target, entries, n);
    var own := Fresh(o, target, entries, n);
    if own.key in results {
      var j :| 0 <= j < n && entries[j].Carried? && Fresh(o, target, entries, j).key == own.key
               && results[own.key] == Fresh(o, target, entries, j);
      SameKeySameEvaluation(o, target, entries, j, n);
    }
    if own in Distinct(o, target, entries, n) {
      var j :| 0 <= j < n && Fresh(o, target, entries, j) == own;
      assert entries[j].Carried?;
    }
  }

  // ----- what the report guarantees -----

  /** Every carried entry's own fresh evaluation is among the reported relationships; with a target,
      no two reported relationships share an evaluation key. */
  lemma ReportComplete(o: Oracles, target: Option<Bytes>, entries: seq<Entry>, i: nat)
    requires CollisionFree(o, target, entries) && i < |entries|
    ensures var report := Sort(Distinct(o, target, entries, |entries|), ByKey);
      && Fresh(o, target, entries, i) in report
      && (target.None? ==> |report| == |entries|)
  {
    hide Fresh;
    var all := Distinct(o, target, entries, |entries|);
    DistinctListed(o, target, entries, |entries|);
    assert Fresh(o, target, entries, i) in multiset(all);
    assert Fresh(o, target, entries, i) in multiset(Sort(all, ByKey));
    if target.None? { NothingDropped(o, entries, |entries|); }
  }

  lemma {:induction false} NothingDropped(o: Oracles, entries: seq<Entry>, n: nat)
    requires n <= |entries|
    ensures |Distinct(o, None, entries, n)| == n
  {
    hide Fresh;
    if n > 0 { NothingDropped(o, entries, n - 1); }
  }

  lemma KeysDistinct(o: Oracles, target: Option<Bytes>, entries: seq<Entry>, a: nat, b: nat)
    requires CollisionFree(o, target, entries) && target.Some?
    requires var report := Sort(Distinct(o, target, entries, |entries|), ByKey);
      a < b < |report| && report[a].Evaluated? && report[b].Evaluated?
    ensures var report := Sort(Distinct(o, target, entries, |entries|), ByKey); report[a].key != report[b].key
  {
    hide CollisionFree, Fresh, Distinct, Sort;
    var all := Distinct(o, target, entries, |entries|);
    var report := Sort(all, ByKey);
    DistinctOnce(o, target, entries, |entries|);
    SortedOnce(all);
    DistinctListed(o, target, entries, |entries|);
    assert multiset(report) == multiset(all);
    assert report[a] in multiset(report) && report[b] in multiset(report);
    assert report[a] in all && report[b] in all;
    var i :| 0 <= i < |entries| && Fresh(o, target, entries, i) == report[a];
    var j :| 0 <= j < |entries| && Fresh(o, target, entries, j) == report[b];
    assert report[a] != report[b];
    if report[a].key == report[b].key { SameKeySameEvaluation(o, target, entries, i, j); }
  }

  lemma SortedOnce(all: seq<Relationship>)
    requires NoRepeats(all)
    ensures NoRepeats(Sort(all, ByKey))
  {
    NoRepeatsCount(all);
    NoRepeatsCount(Sort(all, ByKey));
  }

  /** The order of the report is that of the keys. */
  lemma ReportOrdered(o: Oracles, target: Option<Bytes>, entries: seq<Entry>)
    ensures Ordered(Sort(Distinct(o, target, entries, |entries|), ByKey), ByKey)
  {
    StrLeByKeyIsPreorder(SortKey, ByKey);
    SortOrdered(Distinct(o, target, entries, |entries|), ByKey);
  }

  // ----- what the report says of each entry -----

  /** The context names the caller's key by its identity, the digest of its public key and its policy. */
  predicate KeyTold(o: Oracles, k: Option<Key>, told: Option<KeyContext>) {
    match told
    case None => k.None?
    case Some(x) => k.Some? && x.identity == k.value.identity && x.digest == o.digest(k.value.der)
                    && x.policy == k.value.policy
  }

  /** A carried entry is evaluated with the target, its own two byte strings and its selection, and its
      key is the digest of what these four are digested to. */
  lemma FreshExactly(o: Oracles, target: Option<Bytes>, entries: seq<Entry>, i: nat)
    requires i < |entries|
    ensures entries[i].Refused? ==> Fresh(o, target, entries, i) == BadCarrier(i)
    ensures entries[i].Carried? ==>
      var e, r := entries[i], Fresh(o, target, entries, i);
      && r.Evaluated? && r.key == o.identityDigest(r.identity)
      && (target.None? ==> r.identity.target == None)
      && (target.Some? ==> r.identity.target == Some(o.digest(target.value)))
      && r.identity.statement == o.digest(e.statement) && r.identity.receipt == o.digest(e.receipt)
      && r.identity.context == o.contextDigest(r.context)
      && KeyTold(o, e.selection.statementKey, r.context.statementIssuer)
      && KeyTold(o, e.selection.serviceKey, r.context.service) && r.context.proofIndex == e.selection.proofIndex
      && r.result == o.evaluate(target, e.statement, e.receipt, e.selection)
  {}

  /** The hint and the authenticated identity are two texts, neither empty, that differ. */
  predicate Disagree(hint: Option<string>, authenticated: Option<string>) {
    match (hint, authenticated)
    case (Some(h), Some(a)) => |h| > 0 && |a| > 0 && h != a
    case _ => false
  }

  predicate SameAt(o: Oracles, target: Option<Bytes>, entries: seq<Entry>, j: nat, i: nat)
    requires j < |entries| && i < |entries|
  {
    entries[j].Carried? && Fresh(o, target, entries, j) == Fresh(o, target, entries, i)
  }

  /** Each entry's observation gives its place, its key, whether a target was supplied and an earlier
      entry evaluates to the same, and whether the authenticated service is another than the hint. */
  lemma ObservationExactly(o: Oracles, target: Option<Bytes>, entries: seq<Entry>, i: nat)
    requires i < |entries|
    ensures var obs, e := ObservationOf(o, target, entries, i), entries[i];
      && obs.index == i
      && (e.Refused? ==> obs.key == None && !obs.duplicate && !obs.serviceDisagrees)
      && (e.Carried? ==> obs.key == Some(Fresh(o, target, entries, i).key))
      && (e.Carried? ==> (obs.duplicate <==> target.Some? && exists j: nat :: j < i && SameAt(o, target, entries, j, i)))
      && (e.Carried? ==>
            (obs.serviceDisagrees <==>
             Disagree(e.hint, o.evaluate(target, e.statement, e.receipt, e.selection).authenticated)))
  {
    if entries[i].Carried? {
      FreshExactly(o, target, entries, i);
      DistinctListed(o, target, entries, i);
      hide Fresh, Distinct;
      var own := Fresh(o, target, entries, i);
      if own in Distinct(o, target, entries, i) {
        var j: nat :| j < i && Fresh(o, target, entries, j) == own;
        assert SameAt(o, target, entries, j, i);
      }
    }
  }

  /** The text an evaluation is placed by: its key, or the index of a refused entry. */
  function Place(r: Relationship): string { if r.Evaluated? then r.key else IntText(r.index) }

  lemma ReportPlaced(o: Oracles, target: Option<Bytes>, entries: seq<Entry>, a: nat, b: nat)
    requires var report := Sort(Distinct(o, target, entries, |entries|), ByKey); a < b < |report|
    ensures var report := Sort(Distinct(o, target, entries, |entries|), ByKey); StrLe(Place(report[a]), Place(report[b]))
  {
    ReportOrdered(o, target, entries);
    hide Distinct, Sort;
    var report := Sort(Distinct(o, target, entries, |entries|), ByKey);
    assert ByKey(report[a], report[b]);
  }
}
