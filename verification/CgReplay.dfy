/** `cg_replay.py`: digest binding of a flat execution packet. */
module CgReplay {
  import opened JsonValue
  import opened CanonicalJson
  import opened DigestBinding

  const PROJECTION := "projection_digest"
  const QUERY := "query_digest"
  const RESULT := "result_digest"
  const EXECUTION_PACKET_SCHEMA := "countergraph.execution-packet/v0.1"

  datatype Finding = Finding(
    projectionIntegrityValid: Option<bool>,
    queryBindingValid: bool,
    resultDigestValid: bool,
    executionDigestValid: bool,
    executionReproduced: bool,
    executionPacketDigestValid: bool,
    failureCode: Option<string>)

  function Fail(code: string): Finding {
    Finding(Some(false), false, false, false, false, false, Some(code))
  }

  /** The document `_recompute_execution_digest` hashes. */
  function ExecutionDocument(query: Json, result: Json, projection: Json): Json {
    Obj([Member(PROJECTION, projection), Member(QUERY, query), Member(RESULT, result)])
  }

  /** `d.pop(k, None)`. */
  function Without(ms: seq<Member>, k: string): seq<Member> {
    if ms == [] then []
    else if ms[0].key == k then Without(ms[1..], k)
    else [ms[0]] + Without(ms[1..], k)
  }

  function Verify(hash: string -> string, hex: string -> bool, packet: Json): Finding {
    var query, result := Get(packet, "query"), Get(packet, "result");
    var queryDigest, resultDigest := Get(packet, QUERY), Get(packet, RESULT);
    var projection, execution := Get(packet, PROJECTION), Get(packet, "execution_digest");
    var whole := Get(packet, "execution_packet_digest");
    if !packet.Obj? then Fail("invalid_packet")
    else if Get(packet, "schema") != Str(EXECUTION_PACKET_SCHEMA) then Fail("wrong_packet_schema")
    else if !query.Obj? then Fail("missing_query")
    else if !IsSha256(hex, queryDigest) then Fail("invalid_query_digest")
    else if Digest(hash, query).None? then Fail("query_digest_error")
    else if !result.Obj? then Fail("missing_result")
    else if !IsSha256(hex, resultDigest) then Fail("invalid_result_digest")
    else if Digest(hash, result).None? then Fail("result_digest_error")
    else if !IsSha256(hex, execution) then Fail("invalid_execution_digest")
    else if IsSha256(hex, projection)
         && Digest(hash, ExecutionDocument(queryDigest, resultDigest, projection)).None? then
      Fail("execution_digest_error")
    else if !IsSha256(hex, whole) then Fail("invalid_execution_packet_digest")
    else match Digest(hash, Obj(Without(packet.members, "execution_packet_digest")))
      case None => Fail("execution_packet_digest_error")
      case Some(packetDigest) =>
        var projectionOk :=
          if projection == Null then None else Some(IsSha256(hex, projection));
        var queryOk := Digest(hash, query) == Some(queryDigest.s);
        var resultOk := Digest(hash, result) == Some(resultDigest.s);
        var executionOk :=
          && IsSha256(hex, projection)
          && Digest(hash, ExecutionDocument(queryDigest, resultDigest, projection)) == Some(execution.s);
        var packetOk := packetDigest == whole.s;
        Finding(projectionOk, queryOk, resultOk, executionOk,
                queryOk && resultOk && executionOk && packetOk && projectionOk == Some(true),
                packetOk, None)
  }

  // ----- what the conclusions mean -----

  /** Popping a key takes it away and leaves every other field as it was. */
  lemma {:induction false} WithoutExactly(ms: seq<Member>, k: string, x: string)
    ensures HasKey(Without(ms, k), x) <==> x != k && HasKey(ms, x)
    ensures x != k ==> Lookup(Without(ms, k), x) == Lookup(ms, x)
  {
    if ms != [] {
      WithoutExactly(ms[1..], k, x);
      if ms[0].key != k { assert Without(ms, k)[1..] == Without(ms[1..], k); }
    }
  }

  /** The document whose digest an execution carries, as a dict of its three fields. */
  function DigestOfThree(hash: string -> string, query: Json, result: Json, projection: Json): Option<string> {
    Digest(hash, Obj([Member("projection_digest", projection), Member("query_digest", query),
                      Member("result_digest", result)]))
  }

  /** The packet can be judged: no failure code is given. */
  predicate Judgeable(hash: string -> string, hex: string -> bool, p: Json) {
    && p.Obj? && Get(p, "schema") == Str("countergraph.execution-packet/v0.1")
    && Get(p, "query").Obj? && IsSha256(hex, Get(p, "query_digest")) && Digest(hash, Get(p, "query")).Some?
    && Get(p, "result").Obj? && IsSha256(hex, Get(p, "result_digest")) && Digest(hash, Get(p, "result")).Some?
    && IsSha256(hex, Get(p, "execution_digest"))
    && (IsSha256(hex, Get(p, "projection_digest")) ==>
          DigestOfThree(hash, Get(p, "query_digest"), Get(p, "result_digest"), Get(p, "projection_digest")).Some?)
    && IsSha256(hex, Get(p, "execution_packet_digest"))
    && Digest(hash, Obj(Without(p.members, "execution_packet_digest"))).Some?
  }

  /** A packet that cannot be judged gets no conclusion. */
  lemma JudgedExactly(hash: string -> string, hex: string -> bool, p: Json)
    ensures var f := Verify(hash, hex, p);
      && (f.failureCode == None <==> Judgeable(hash, hex, p))
      && (f.failureCode != None ==> f == Finding(Some(false), false, false, false, false, false, f.failureCode))
  {
    hide Canonical, CanonWalk, Lookup, IsSha256, Digest, Without;
  }

  /** Each conclusion of a judged packet, told by `Digest`, the packet's fields and constants alone. */
  lemma ConclusionsExactly(hash: string -> string, hex: string -> bool, p: Json)
    requires Judgeable(hash, hex, p)
    ensures
      var f, projection := Verify(hash, hex, p), Get(p, "projection_digest");
      && (f.projectionIntegrityValid == None <==> projection == Null)
      && (f.projectionIntegrityValid == Some(true) <==> IsSha256(hex, projection))
      && (f.queryBindingValid <==> Digest(hash, Get(p, "query")) == Some(Get(p, "query_digest").s))
      && (f.resultDigestValid <==> Digest(hash, Get(p, "result")) == Some(Get(p, "result_digest").s))
      && (f.executionDigestValid <==>
            && IsSha256(hex, projection)
            && DigestOfThree(hash, Get(p, "query_digest"), Get(p, "result_digest"), projection)
               == Some(Get(p, "execution_digest").s))
      && (f.executionPacketDigestValid <==>
            Digest(hash, Obj(Without(p.members, "execution_packet_digest"))) == Some(Get(p, "execution_packet_digest").s))
      && (f.executionReproduced <==>
            && f.projectionIntegrityValid == Some(true) && f.queryBindingValid && f.resultDigestValid
            && f.executionDigestValid && f.executionPacketDigestValid)
  {
    assert IsSha256(hex, Get(p, "projection_digest")) ==> Get(p, "projection_digest") != Null;
    hide Canonical, CanonWalk, Lookup, IsSha256, Digest, Without;
  }

  /** So a flat packet is reproduced exactly when it is of the fixed schema and its four digests are
      well formed and those of what they name, the projection's well formed. */
  lemma ReproducedExactly(hash: string -> string, hex: string -> bool, p: Json)
    ensures Verify(hash, hex, p).executionReproduced <==>
      && p.Obj? && Get(p, "schema") == Str("countergraph.execution-packet/v0.1")
      && Get(p, "query").Obj? && Get(p, "result").Obj?
      && IsSha256(hex, Get(p, "projection_digest"))
      && IsSha256(hex, Get(p, "query_digest")) && Digest(hash, Get(p, "query")) == Some(Get(p, "query_digest").s)
      && IsSha256(hex, Get(p, "result_digest")) && Digest(hash, Get(p, "result")) == Some(Get(p, "result_digest").s)
      && IsSha256(hex, Get(p, "execution_digest"))
      && DigestOfThree(hash, Get(p, "query_digest"), Get(p, "result_digest"), Get(p, "projection_digest"))
         == Some(Get(p, "execution_digest").s)
      && IsSha256(hex, Get(p, "execution_packet_digest"))
      && Digest(hash, Obj(Without(p.members, "execution_packet_digest"))) == Some(Get(p, "execution_packet_digest").s)
  {
    hide Verify, Get, IsSha256, Digest, Without, DigestOfThree;
    JudgedExactly(hash, hex, p);
    if Judgeable(hash, hex, p) { ConclusionsExactly(hash, hex, p); }
  }

  /** The failure code names the first condition that does not hold. */
  lemma FailureExactly(hash: string -> string, hex: string -> bool, p: Json)
    ensures var code := Verify(hash, hex, p).failureCode;
      var known := p.Obj? && Get(p, "schema") == Str("countergraph.execution-packet/v0.1");
      var asked := known && Get(p, "query").Obj?;
      var named := asked && IsSha256(hex, Get(p, "query_digest"));
      var query := named && Digest(hash, Get(p, "query")).Some?;
      var answered := query && Get(p, "result").Obj?;
      var noted := answered && IsSha256(hex, Get(p, "result_digest"));
      var result := noted && Digest(hash, Get(p, "result")).Some?;
      && (code == Some("invalid_packet") <==> !p.Obj?)
      && (code == Some("wrong_packet_schema") <==> p.Obj? && !known)
      && (code == Some("missing_query") <==> known && !asked)
      && (code == Some("invalid_query_digest") <==> asked && !named)
      && (code == Some("query_digest_error") <==> named && !query)
      && (code == Some("missing_result") <==> query && !answered)
      && (code == Some("invalid_result_digest") <==> answered && !noted)
      && (code == Some("result_digest_error") <==> noted && !result)
      && (code == Some("invalid_execution_digest") <==> result && !IsSha256(hex, Get(p, "execution_digest")))
      && (code == Some("execution_digest_error") ==>
            DigestOfThree(hash, Get(p, "query_digest"), Get(p, "result_digest"), Get(p, "projection_digest")) == None)
      && (code == Some("invalid_execution_packet_digest") ==> !IsSha256(hex, Get(p, "execution_packet_digest")))
      && (code == Some("execution_packet_digest_error") ==>
            Digest(hash, Obj(Without(p.members, "execution_packet_digest"))) == None)
  {
    hide Canonical, CanonWalk, Lookup, IsSha256, Digest, Without;
  }

  // ----- filling in the digests -----

  /** The packet with its four digests stored, those hashed into another one first. */
  function Fill(hash: string -> string, packet: seq<Member>): Option<seq<Member>> {
    var query :- Digest(hash, Lookup(packet, "query"));
    var result :- Digest(hash, Lookup(packet, "result"));
    var execution :-
      Digest(hash, ExecutionDocument(Str(query), Str(result), Lookup(packet, PROJECTION)));
    var p := Put(packet, QUERY, Str(query));
    var p := Put(p, RESULT, Str(result));
    var p := Put(p, "execution_digest", Str(execution));
    var whole :- Digest(hash, Obj(Without(p, "execution_packet_digest")));
    Some(Put(p, "execution_packet_digest", Str(whole)))
  }

  lemma {:induction false} WithoutPut(ms: seq<Member>, k: string, v: Json)
    ensures Without(Put(ms, k, v), k) == Without(ms, k)
  {
    if ms == [] {
      assert Put(ms, k, v)[1..] == [];
    } else if ms[0].key == k {
      assert Put(ms, k, v)[1..] == ms[1..];
    } else {
      WithoutPut(ms[1..], k, v);
      assert Put(ms, k, v)[1..] == Put(ms[1..], k, v);
    }
  }

  lemma {:induction false} WithoutLower(ms: seq<Member>, k: string)
    ensures Height(Obj(Without(ms, k))) <= Height(Obj(ms))
  {
    if ms != [] {
      WithoutLower(ms[1..], k);
      if ms[0].key != k { assert Without(ms, k)[1..] == Without(ms[1..], k); }
    }
  }

  lemma {:induction false} LookupLower(ms: seq<Member>, k: string)
    ensures Height(Lookup(ms, k)) <= Height(Obj(ms))
  {
    if ms != [] { LookupLower(ms[1..], k); }
  }

  /** The stored digests are those the verifier recomputes. */
  predicate Bound(hash: string -> string, hex: string -> bool, ms: seq<Member>) {
    var query, result := Lookup(ms, QUERY), Lookup(ms, RESULT);
    var execution, whole := Lookup(ms, "execution_digest"), Lookup(ms, "execution_packet_digest");
    && IsSha256(hex, query) && Digest(hash, Lookup(ms, "query")) == Some(query.s)
    && IsSha256(hex, result) && Digest(hash, Lookup(ms, "result")) == Some(result.s)
    && IsSha256(hex, execution)
    && Digest(hash, ExecutionDocument(query, result, Lookup(ms, PROJECTION))) == Some(execution.s)
    && IsSha256(hex, whole) && Digest(hash, Obj(Without(ms, "execution_packet_digest"))) == Some(whole.s)
  }

  lemma FilledBound(hash: string -> string, hex: string -> bool, packet: seq<Member>)
    requires HashFormat(hash, hex) && Fits(packet, 0) && IsSha256(hex, Lookup(packet, PROJECTION))
    ensures var filled := Fill(hash, packet);
      && filled.Some? && Bound(hash, hex, filled.value)
      && Lookup(filled.value, "schema") == Lookup(packet, "schema")
      && Lookup(filled.value, "query") == Lookup(packet, "query")
      && Lookup(filled.value, "result") == Lookup(packet, "result")
      && Lookup(filled.value, PROJECTION) == Lookup(packet, PROJECTION)
  {
    hide Canonical, CanonWalk, Height, Put, Lookup, IsSha256, AbsMembers, WellFormed, Abs, Without, Digest,
         ExecutionDocument, Fits;
    DigestOfMember(hash, hex, packet, "query");
    DigestOfMember(hash, hex, packet, "result");
    var query, result := Digest(hash, Lookup(packet, "query")).value, Digest(hash, Lookup(packet, "result")).value;
    var document := ExecutionDocument(Str(query), Str(result), Lookup(packet, PROJECTION));
    FlatDocument(hash, hex, document, query, result, Lookup(packet, PROJECTION));
    var execution := Digest(hash, document).value;
    var p1 := Put(packet, QUERY, Str(query));
    var p2 := Put(p1, RESULT, Str(result));
    var p3 := Put(p2, "execution_digest", Str(execution));
    FitsString(packet, QUERY, query, 0);
    FitsString(p1, RESULT, result, 0);
    FitsString(p2, "execution_digest", execution, 0);
    DigestWithout(hash, hex, p3, "execution_packet_digest");
    var whole := Digest(hash, Obj(Without(p3, "execution_packet_digest"))).value;
    FilledFields(packet, query, result, execution, whole);
    WithoutPut(p3, "execution_packet_digest", Str(whole));
  }

  lemma FilledFields(ms: seq<Member>, query: string, result: string, execution: string, whole: string)
    ensures var p := Put(Put(ms, QUERY, Str(query)), RESULT, Str(result));
      var q := Put(Put(p, "execution_digest", Str(execution)), "execution_packet_digest", Str(whole));
      && Lookup(q, QUERY) == Str(query) && Lookup(q, RESULT) == Str(result)
      && Lookup(q, "execution_digest") == Str(execution) && Lookup(q, "execution_packet_digest") == Str(whole)
      && Lookup(q, "schema") == Lookup(ms, "schema")
      && Lookup(q, "query") == Lookup(ms, "query") && Lookup(q, "result") == Lookup(ms, "result")
      && Lookup(q, PROJECTION) == Lookup(ms, PROJECTION)
  {
    hide Put, Lookup;
    var p1 := Put(ms, QUERY, Str(query));
    var p2 := Put(p1, RESULT, Str(result));
    var p3 := Put(p2, "execution_digest", Str(execution));
    LookupPut(ms, QUERY, Str(query));
    LookupPut(p1, RESULT, Str(result));
    LookupPut(p2, "execution_digest", Str(execution));
    LookupPut(p3, "execution_packet_digest", Str(whole));
  }

  /** Storing the digests in any packet of the right schema with a query, a result and a well-formed
      projection digest gives a packet that verifies in full. */
  lemma FilledFlatPacketReproduced(hash: string -> string, hex: string -> bool, packet: seq<Member>)
    requires HashFormat(hash, hex) && Fits(packet, 0)
    requires Lookup(packet, "schema") == Str(EXECUTION_PACKET_SCHEMA)
    requires Lookup(packet, "query").Obj? && Lookup(packet, "result").Obj?
    requires IsSha256(hex, Lookup(packet, PROJECTION))
    ensures var filled := Fill(hash, packet);
      filled.Some? && Verify(hash, hex, Obj(filled.value)) == Finding(Some(true), true, true, true, true, true, None)
  {
    hide Canonical, CanonWalk, Lookup, Without, Digest, ExecutionDocument, Fill, Fits, HashFormat;
    FilledBound(hash, hex, packet);
  }

  lemma DigestOfMember(hash: string -> string, hex: string -> bool, ms: seq<Member>, k: string)
    requires HashFormat(hash, hex) && Fits(ms, 0)
    ensures Digest(hash, Lookup(ms, k)).Some? && IsSha256(hex, Str(Digest(hash, Lookup(ms, k)).value))
  {
    hide Canonical, CanonWalk, Height, Lookup, IsSha256;
    LookupLower(ms, k);
    CanonicalDefined(Lookup(ms, k));
    DigestWellFormatted(hash, hex, Lookup(ms, k));
  }

  lemma DigestWithout(hash: string -> string, hex: string -> bool, ms: seq<Member>, k: string)
    requires HashFormat(hash, hex) && Fits(ms, 0)
    ensures var d := Digest(hash, Obj(Without(ms, k))); d.Some? && IsSha256(hex, Str(d.value))
  {
    hide Canonical, CanonWalk, Height, Without, IsSha256;
    WithoutLower(ms, k);
    CanonicalDefined(Obj(Without(ms, k)));
    DigestWellFormatted(hash, hex, Obj(Without(ms, k)));
  }

  lemma FlatDocument(hash: string -> string, hex: string -> bool, d: Json, query: string, result: string,
                     projection: Json)
    requires HashFormat(hash, hex) && IsSha256(hex, projection)
    requires d == ExecutionDocument(Str(query), Str(result), projection)
    ensures Digest(hash, d).Some? && IsSha256(hex, Str(Digest(hash, d).value))
  {
    var ms := d.members;
    ThreeScalars(ms, ms[0], ms[1], ms[2]);
    hide Canonical, CanonWalk, IsSha256;
    CanonicalDefined(d);
    DigestWellFormatted(hash, hex, d);
  }

  lemma ThreeScalars(ms: seq<Member>, a: Member, b: Member, c: Member)
    requires ms == [a, b, c] && a.value.Str? && b.value.Str? && c.value.Str?
    ensures Height(Obj(ms)) == 1
  {
    assert [c][1..] == [] && MembersHeight([c]) == Max(1 + Height(c.value), 0);
    assert [b, c][1..] == [c] && MembersHeight([b, c]) == Max(1 + Height(b.value), MembersHeight([c]));
    assert ms[1..] == [b, c] && MembersHeight(ms) == Max(1 + Height(a.value), MembersHeight([b, c]));
  }

  // ----- what a reproduced digest names -----

  /** Two verified flat packets with the same execution digest carry equal queries, equal results
      and the same projection digest, unless one of the three pairs of hashed texts collides. */
  lemma ReproducedExecutionsEqual(hash: string -> string, hex: string -> bool, p: Json, q: Json)
    requires WellFormed(p) && WellFormed(q)
    requires Verify(hash, hex, p).executionReproduced && Verify(hash, hex, q).executionReproduced
    requires Get(p, "execution_digest") == Get(q, "execution_digest")
    requires NoCollision(hash, CanonicalText(DocumentOf(p)), CanonicalText(DocumentOf(q)))
    requires NoCollision(hash, CanonicalText(Get(p, "query")), CanonicalText(Get(q, "query")))
    requires NoCollision(hash, CanonicalText(Get(p, "result")), CanonicalText(Get(q, "result")))
    ensures Abs(Get(p, "query")) == Abs(Get(q, "query"))
    ensures Abs(Get(p, "result")) == Abs(Get(q, "result"))
    ensures Get(p, PROJECTION) == Get(q, PROJECTION)
  {
    hide *;
    ReproducedMeans(hash, hex, p);
    ReproducedMeans(hash, hex, q);
    DocumentFields(hex, p);
    DocumentFields(hex, q);
    EqualDigests(hash, DocumentOf(p), DocumentOf(q));
    SameDocument(Abs(Get(p, PROJECTION)), Abs(Get(p, QUERY)), Abs(Get(p, RESULT)),
                 Abs(Get(q, PROJECTION)), Abs(Get(q, QUERY)), Abs(Get(q, RESULT)));
    AbsText(Get(p, PROJECTION), Get(q, PROJECTION));
    AbsText(Get(p, QUERY), Get(q, QUERY));
    AbsText(Get(p, RESULT), Get(q, RESULT));
    WellFormedGet(p, "query");
    WellFormedGet(q, "query");
    WellFormedGet(p, "result");
    WellFormedGet(q, "result");
    EqualDigests(hash, Get(p, "query"), Get(q, "query"));
    EqualDigests(hash, Get(p, "result"), Get(q, "result"));
  }

  lemma SameDocument(x: Value, y: Value, z: Value, x': Value, y': Value, z': Value)
    requires map[PROJECTION := x, QUERY := y, RESULT := z] == map[PROJECTION := x', QUERY := y', RESULT := z']
    ensures x == x' && y == y' && z == z'
  {
    hide *;
    KeysDiffer();
    SameThree(PROJECTION, QUERY, RESULT, x, y, z, x', y', z');
  }

  lemma AbsText(x: Json, y: Json)
    requires x.Str? && y.Str?
    ensures Abs(x) == Abs(y) ==> x == y
  {}

  lemma KeysDiffer()
    ensures PROJECTION != QUERY && PROJECTION != RESULT && QUERY != RESULT
  {
    assert PROJECTION[0] == 'p' && QUERY[0] == 'q' && RESULT[0] == 'r';
  }

  lemma SameThree(i: string, j: string, k: string, x: Value, y: Value, z: Value, x': Value, y': Value, z': Value)
    requires i != j && i != k && j != k
    requires map[i := x, j := y, k := z] == map[i := x', j := y', k := z']
    ensures x == x' && y == y' && z == z'
  {
    var a := map[i := x, j := y, k := z];
    assert a[i] == x' && a[j] == y' && a[k] == z';
  }

  function DocumentOf(p: Json): Json {
    ExecutionDocument(Get(p, QUERY), Get(p, RESULT), Get(p, PROJECTION))
  }

  lemma ReproducedMeans(hash: string -> string, hex: string -> bool, p: Json)
    requires Verify(hash, hex, p).executionReproduced
    ensures IsSha256(hex, Get(p, QUERY)) && IsSha256(hex, Get(p, RESULT))
    ensures IsSha256(hex, Get(p, PROJECTION)) && IsSha256(hex, Get(p, "execution_digest"))
    ensures Digest(hash, DocumentOf(p)) == Some(Get(p, "execution_digest").s)
    ensures Digest(hash, Get(p, "query")) == Some(Get(p, QUERY).s)
    ensures Digest(hash, Get(p, "result")) == Some(Get(p, RESULT).s)
  {
    hide Canonical, CanonWalk, Lookup, Digest, ExecutionDocument;
  }

  lemma DocumentFields(hex: string -> bool, p: Json)
    requires IsSha256(hex, Get(p, QUERY)) && IsSha256(hex, Get(p, RESULT))
    requires IsSha256(hex, Get(p, PROJECTION))
    ensures Get(p, QUERY).Str? && Get(p, RESULT).Str? && Get(p, PROJECTION).Str?
    ensures WellFormed(DocumentOf(p))
    ensures Abs(DocumentOf(p)) == VObj(map[PROJECTION := Abs(Get(p, PROJECTION)),
              QUERY := Abs(Get(p, QUERY)), RESULT := Abs(Get(p, RESULT))])
  {
    KeysDiffer();
    hide Lookup;
    var ms := DocumentOf(p).members;
    ThreeMembers(ms, ms[0], ms[1], ms[2]);
  }

  lemma ThreeMembers(ms: seq<Member>, a: Member, b: Member, c: Member)
    requires ms == [a, b, c] && a.key != b.key && a.key != c.key && b.key != c.key
    ensures DistinctKeys(ms)
    ensures AbsMembers(ms) == map[a.key := Abs(a.value), b.key := Abs(b.value), c.key := Abs(c.value)]
  {
    assert [c][1..] == [];
    assert DistinctKeys([c]) && AbsMembers([c]) == map[c.key := Abs(c.value)];
    assert [b, c][1..] == [c];
    assert !HasKey([c], b.key) && DistinctKeys([b, c]);
    assert AbsMembers([b, c]) == map[b.key := Abs(b.value), c.key := Abs(c.value)];
    assert ms[1..] == [b, c];
    assert !HasKey([b, c], a.key);
  }
}
