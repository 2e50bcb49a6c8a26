/** `cg_execution_replay.py`: digest binding of a nested execution packet, where every document
    carries a digest of itself with that digest field masked. */
module CgExecutionReplay {
  import opened JsonValue
  import opened CanonicalJson
  import opened DigestBinding

  const EXECUTION_PACKET_SCHEMA := "countergraph.execution-packet/v0.1"
  const QUERY_EXECUTION_SCHEMA := "countergraph.query-execution/v0.1"
  const PACKET_ID_PREFIX := "cg:execution-packet:sha256:"
  const PACKET_ID_SENTINEL := "cg:execution-packet:sha256:pending"

  datatype Report = Report(
    packetDigestValid: bool,
    packetIdValid: bool,
    projectionIntegrityValid: bool,
    queryBindingValid: bool,
    resultDigestValid: bool,
    executionDigestValid: bool,
    executionReproduced: bool,
    failureCode: Option<string>)

  function Fail(code: string): Report {
    Report(false, false, false, false, false, false, false, Some(code))
  }

  predicate IsPacketId(hex: string -> bool, v: Json) {
    && v.Str? && PACKET_ID_PREFIX <= v.s
    && var body := v.s[|PACKET_ID_PREFIX|..]; |body| == 64 && hex(body)
  }

  function PacketIdFromDigest(digest: string): string
    requires |digest| >= 7
  {
    PACKET_ID_PREFIX + digest[7..]
  }

  function MaskPacket(ms: seq<Member>): seq<Member> {
    Put(Put(ms, "packet_digest", Str(DIGEST_SENTINEL)), "packet_id", Str(PACKET_ID_SENTINEL))
  }

  /** A dict whose stored digest is well formed and equal to its masked digest. */
  predicate SelfBound(hash: string -> string, hex: string -> bool, j: Json, field: string) {
    && j.Obj?
    && IsSha256(hex, Get(j, field))
    && MaskedDigest(hash, j.members, field) == Some(Get(j, field).s)
  }

  function Verify(hash: string -> string, hex: string -> bool, packet: Json): Report {
    if !packet.Obj? then Fail("invalid_packet")
    else if Get(packet, "schema") != Str(EXECUTION_PACKET_SCHEMA) then Fail("wrong_packet_schema")
    else if Get(packet, "packet_kind") != Str("query_execution") then Fail("unsupported_packet_kind")
    else if !IsSha256(hex, Get(packet, "packet_digest")) then Fail("invalid_packet_digest")
    else match Digest(hash, Obj(MaskPacket(packet.members)))
      case None => Fail("packet_digest_error")
      case Some(recomputed) =>
        var declared := Get(packet, "packet_digest").s;
        var declaredId := Get(packet, "packet_id");
        var execution := Get(packet, "root_execution");
        if !execution.Obj? then Fail("missing_root_execution")
        else if Get(execution, "schema") != Str(QUERY_EXECUTION_SCHEMA) then
          Fail("wrong_execution_schema")
        else
          var query := Get(execution, "query");
          var result := Get(execution, "read_result");
          var packetDigestValid := recomputed == declared;
          var packetIdValid :=
            IsPacketId(hex, declaredId) && declaredId.s == PacketIdFromDigest(declared);
          var projectionIntegrityValid :=
            IsSha256(hex, Get(Get(query, "source_requirement"), "projection_digest"));
          var queryBindingValid := SelfBound(hash, hex, query, "query_digest");
          var resultDigestValid :=
            && SelfBound(hash, hex, result, "result_digest")
            && Get(result, "result_digest") == Get(execution, "read_result_digest");
          var executionDigestValid := SelfBound(hash, hex, execution, "execution_digest");
          Report(packetDigestValid, packetIdValid, projectionIntegrityValid, queryBindingValid,
                 resultDigestValid, executionDigestValid,
                 packetDigestValid && packetIdValid && projectionIntegrityValid
                 && queryBindingValid && resultDigestValid && executionDigestValid,
                 None)
  }

  // ----- filling in the digests from the inside out -----

  function FillExecution(hash: string -> string, execution: seq<Member>, query: seq<Member>,
                         result: seq<Member>): seq<Member>
  {
    var sealedResult := Seal(hash, result, "result_digest");
    var e1 := Put(execution, "query", Obj(Seal(hash, query, "query_digest")));
    var e2 := Put(e1, "read_result", Obj(sealedResult));
    var e3 := Put(e2, "read_result_digest", Lookup(sealedResult, "result_digest"));
    Seal(hash, e3, "execution_digest")
  }

  function FillPacket(hash: string -> string, packet: seq<Member>, execution: seq<Member>): seq<Member> {
    var p := Put(packet, "root_execution", Obj(execution));
    match Digest(hash, Obj(MaskPacket(p)))
    case Some(d) =>
      Put(Put(p, "packet_digest", Str(d)), "packet_id", Str(PACKET_ID_PREFIX + d[|SHA256_PREFIX|..]))
    case None => p
  }

  lemma FilledExecution(hash: string -> string, hex: string -> bool, execution: seq<Member>,
                        query: seq<Member>, result: seq<Member>)
    requires HashFormat(hash, hex)
    requires Fits(execution, 1) && Fits(query, 2) && Fits(result, 2)
    ensures var e := FillExecution(hash, execution, query, result);
      && Fits(e, 1)
      && SelfBound(hash, hex, Obj(e), "execution_digest")
      && SelfBound(hash, hex, Lookup(e, "query"), "query_digest")
      && SelfBound(hash, hex, Lookup(e, "read_result"), "result_digest")
      && Get(Lookup(e, "read_result"), "result_digest") == Lookup(e, "read_result_digest")
      && Lookup(e, "schema") == Lookup(execution, "schema")
      && Get(Lookup(e, "query"), "source_requirement") == Lookup(query, "source_requirement")
  {
    hide Canonical, CanonWalk, Height, Put, Lookup, IsSha256, AbsMembers, WellFormed, Abs, Seal, MaskedDigest, Fits,
         HashFormat;
    SealVerifies(hash, hex, query, "query_digest", 2);
    SealVerifies(hash, hex, result, "result_digest", 2);
    var q, r := Seal(hash, query, "query_digest"), Seal(hash, result, "result_digest");
    var d := Lookup(r, "result_digest");
    assert d.Str? by { IsSha256Str(hex, d); }
    var e1 := Put(execution, "query", Obj(q));
    var e2 := Put(e1, "read_result", Obj(r));
    var e3 := Put(e2, "read_result_digest", d);
    FitsDict(execution, "query", q, 1);
    FitsDict(e1, "read_result", r, 1);
    FitsString(e2, "read_result_digest", d.s, 1);
    ExecutionFields(execution, Obj(q), Obj(r), d);
    SealVerifies(hash, hex, e3, "execution_digest", 1);
  }

  lemma ExecutionFields(ms: seq<Member>, query: Json, result: Json, digest: Json)
    ensures var e := Put(Put(Put(ms, "query", query), "read_result", result), "read_result_digest", digest);
      && Lookup(e, "query") == query && Lookup(e, "read_result") == result
      && Lookup(e, "read_result_digest") == digest && Lookup(e, "schema") == Lookup(ms, "schema")
  {
    hide Put, Lookup;
    var e1 := Put(ms, "query", query);
    var e2 := Put(e1, "read_result", result);
    LookupPut(ms, "query", query);
    LookupPut(e1, "read_result", result);
    LookupPut(e2, "read_result_digest", digest);
  }

  lemma IsSha256Str(hex: string -> bool, v: Json)
    requires IsSha256(hex, v)
    ensures v.Str? && |v.s| == 71
  {}

  /** Masking overwrites whatever the two fields hold. */
  lemma MaskedValue(ms: seq<Member>, below: nat)
    requires Fits(ms, below) && below < MAX_DEPTH
    ensures Fits(MaskPacket(ms), below)
    ensures AbsMembers(MaskPacket(ms))
         == AbsMembers(ms)["packet_digest" := VStr(DIGEST_SENTINEL)]["packet_id" := VStr(PACKET_ID_SENTINEL)]
  {
    hide Canonical, CanonWalk, Height, Put, Lookup, AbsMembers, WellFormed, Abs, Fits;
    FitsString(ms, "packet_digest", DIGEST_SENTINEL, below);
    FitsString(Put(ms, "packet_digest", Str(DIGEST_SENTINEL)), "packet_id", PACKET_ID_SENTINEL, below);
  }

  /** The digest of the masked packet does not depend on the two masked fields. */
  lemma MaskForgets(hash: string -> string, ms: seq<Member>, d: string, id: string)
    requires Fits(ms, 0)
    ensures var r := Put(Put(ms, "packet_digest", Str(d)), "packet_id", Str(id));
      && Digest(hash, Obj(MaskPacket(ms))).Some?
      && Digest(hash, Obj(MaskPacket(r))) == Digest(hash, Obj(MaskPacket(ms)))
  {
    hide Canonical, CanonWalk, Height, Put, Lookup, AbsMembers, WellFormed, Abs, Fits, MaskPacket;
    var a := Put(ms, "packet_digest", Str(d));
    var r := Put(a, "packet_id", Str(id));
    MaskedValue(ms, 0);
    FitsString(ms, "packet_digest", d, 0);
    FitsString(a, "packet_id", id, 0);
    MaskedValue(r, 0);
    OverwriteTwo(AbsMembers(ms), "packet_digest", "packet_id", VStr(d), VStr(id),
                 VStr(DIGEST_SENTINEL), VStr(PACKET_ID_SENTINEL));
    DigestOfEqual(hash, MaskPacket(ms), MaskPacket(r));
  }

  lemma OverwriteTwo(m: map<string, Value>, j: string, k: string, x: Value, y: Value, x': Value, y': Value)
    ensures m[j := x][k := y][j := x'][k := y'] == m[j := x'][k := y']
  {}

  lemma FilledPacket(hash: string -> string, hex: string -> bool, packet: seq<Member>,
                     execution: seq<Member>)
    requires HashFormat(hash, hex) && Fits(packet, 0) && Fits(execution, 1)
    ensures var p := FillPacket(hash, packet, execution);
      && var d := Lookup(p, "packet_digest");
      && IsSha256(hex, d)
      && Digest(hash, Obj(MaskPacket(p))) == Some(d.s)
      && IsPacketId(hex, Lookup(p, "packet_id"))
      && Lookup(p, "packet_id").s == PacketIdFromDigest(d.s)
      && Lookup(p, "root_execution") == Obj(execution)
      && Lookup(p, "schema") == Lookup(packet, "schema")
      && Lookup(p, "packet_kind") == Lookup(packet, "packet_kind")
  {
    hide Canonical, CanonWalk, Height, Put, Lookup, AbsMembers, WellFormed, Abs, Fits, MaskPacket;
    var p := Put(packet, "root_execution", Obj(execution));
    FitsDict(packet, "root_execution", execution, 0);
    LookupPut(packet, "root_execution", Obj(execution));
    MaskForgets(hash, p, "", "");
    DigestWellFormatted(hash, hex, Obj(MaskPacket(p)));
    var d := Digest(hash, Obj(MaskPacket(p))).value;
    var id := PACKET_ID_PREFIX + d[7..];
    assert id[|PACKET_ID_PREFIX|..] == d[7..];
    LookupPut(p, "packet_digest", Str(d));
    LookupPut(Put(p, "packet_digest", Str(d)), "packet_id", Str(id));
    MaskForgets(hash, p, d, id);
  }

  /** Filling the digests into any packet of the right schema and kind, from the inside out,
      gives a packet that verifies in full. */
  lemma FilledPacketReproduced(hash: string -> string, hex: string -> bool, packet: seq<Member>,
                               execution: seq<Member>, query: seq<Member>, result: seq<Member>)
    requires HashFormat(hash, hex)
    requires Fits(packet, 0) && Fits(execution, 1) && Fits(query, 2) && Fits(result, 2)
    requires Lookup(packet, "schema") == Str(EXECUTION_PACKET_SCHEMA)
    requires Lookup(packet, "packet_kind") == Str("query_execution")
    requires Lookup(execution, "schema") == Str(QUERY_EXECUTION_SCHEMA)
    requires IsSha256(hex, Get(Lookup(query, "source_requirement"), "projection_digest"))
    ensures Verify(hash, hex, Obj(FillPacket(hash, packet, FillExecution(hash, execution, query, result))))
         == Report(true, true, true, true, true, true, true, None)
  {
    hide Canonical, CanonWalk, Height, Put, Lookup, AbsMembers, WellFormed, Abs, Fits, MaskPacket,
         FillPacket, FillExecution, IsSha256, IsPacketId, MaskedDigest, Digest;
    FilledExecution(hash, hex, execution, query, result);
    FilledPacket(hash, hex, packet, FillExecution(hash, execution, query, result));
  }

  // ----- what the conclusions mean -----

  /** The dict holds its own digest under `field`: that of the dict with the sentinel there. */
  predicate HoldsOwnDigest(hash: string -> string, hex: string -> bool, j: Json, field: string) {
    && j.Obj?
    && var d := Lookup(j.members, field);
    && IsSha256(hex, d)
    && Digest(hash, Obj(Put(j.members, field, Str(DIGEST_SENTINEL)))) == Some(d.s)
  }

  /** The packet's digest is that of the packet with both sentinels in place. */
  predicate HoldsPacketDigest(hash: string -> string, hex: string -> bool, ms: seq<Member>) {
    var d := Lookup(ms, "packet_digest");
    && IsSha256(hex, d)
    && Digest(hash, Obj(Put(Put(ms, "packet_digest", Str(DIGEST_SENTINEL)), "packet_id", Str(PACKET_ID_SENTINEL))))
       == Some(d.s)
  }

  /** The packet can be judged: no failure code is given. */
  predicate Judgeable(hash: string -> string, hex: string -> bool, p: Json) {
    && p.Obj? && var ms := p.members;
    && Lookup(ms, "schema") == Str("countergraph.execution-packet/v0.1")
    && Lookup(ms, "packet_kind") == Str("query_execution")
    && IsSha256(hex, Lookup(ms, "packet_digest"))
    && Digest(hash, Obj(Put(Put(ms, "packet_digest", Str(DIGEST_SENTINEL)), "packet_id", Str(PACKET_ID_SENTINEL)))).Some?
    && var e := Lookup(ms, "root_execution");
    && e.Obj? && Lookup(e.members, "schema") == Str("countergraph.query-execution/v0.1")
  }

  lemma SelfBoundExactly(hash: string -> string, hex: string -> bool, j: Json, field: string)
    ensures SelfBound(hash, hex, j, field) <==> HoldsOwnDigest(hash, hex, j, field)
  {
    hide Digest, IsSha256, Put, Lookup;
  }

  lemma PacketIdExactly(hex: string -> bool, id: Json, digest: Json)
    requires IsSha256(hex, digest)
    ensures IsPacketId(hex, id) && id.s == PacketIdFromDigest(digest.s)
       <==> id == Str("cg:execution-packet:sha256:" + digest.s[7..])
  {
    var whole := PACKET_ID_PREFIX + digest.s[7..];
    assert whole[|PACKET_ID_PREFIX|..] == digest.s[7..];
  }

  /** Each conclusion of a judged packet, told by `Digest`, `Put`, `Lookup` and constants alone; a packet
      that cannot be judged gets none of them. */
  lemma ConclusionsExactly(hash: string -> string, hex: string -> bool, p: Json)
    ensures var r := Verify(hash, hex, p);
      && (r.failureCode == None <==> Judgeable(hash, hex, p))
      && (r.failureCode != None ==> r == Report(false, false, false, false, false, false, false, r.failureCode))
    ensures Judgeable(hash, hex, p) ==>
      var r, ms := Verify(hash, hex, p), p.members;
      var e := Lookup(ms, "root_execution").members;
      var query, result := Lookup(e, "query"), Lookup(e, "read_result");
      && (r.packetDigestValid <==> HoldsPacketDigest(hash, hex, ms))
      && (r.packetIdValid <==>
            Lookup(ms, "packet_id") == Str("cg:execution-packet:sha256:" + Lookup(ms, "packet_digest").s[7..]))
      && (r.projectionIntegrityValid <==>
            IsSha256(hex, Get(Get(query, "source_requirement"), "projection_digest")))
      && (r.queryBindingValid <==> HoldsOwnDigest(hash, hex, query, "query_digest"))
      && (r.resultDigestValid <==>
            && HoldsOwnDigest(hash, hex, result, "result_digest")
            && Lookup(result.members, "result_digest") == Lookup(e, "read_result_digest"))
      && (r.executionDigestValid <==> HoldsOwnDigest(hash, hex, Obj(e), "execution_digest"))
      && (r.executionReproduced <==>
            && r.packetDigestValid && r.packetIdValid && r.projectionIntegrityValid && r.queryBindingValid
            && r.resultDigestValid && r.executionDigestValid)
  {
    hide Canonical, CanonWalk, Put, Lookup, IsSha256, IsPacketId, SelfBound, HoldsOwnDigest, Digest, PacketIdFromDigest;
    if Judgeable(hash, hex, p) {
      var ms := p.members;
      var e := Lookup(ms, "root_execution").members;
      assert Get(Obj(e), "query") == Lookup(e, "query") && Get(Obj(e), "read_result") == Lookup(e, "read_result");
      SelfBoundExactly(hash, hex, Lookup(e, "query"), "query_digest");
      SelfBoundExactly(hash, hex, Lookup(e, "read_result"), "result_digest");
      SelfBoundExactly(hash, hex, Obj(e), "execution_digest");
      OwnDigestDict(hash, hex, Lookup(e, "read_result"), "result_digest");
      PacketIdExactly(hex, Lookup(ms, "packet_id"), Lookup(ms, "packet_digest"));
    }
  }

  lemma OwnDigestDict(hash: string -> string, hex: string -> bool, j: Json, field: string)
    ensures HoldsOwnDigest(hash, hex, j, field) ==> j.Obj?
  {}

  /** The failure code names the first condition that does not hold. */
  lemma FailureExactly(hash: string -> string, hex: string -> bool, p: Json)
    ensures var code, kind, e := Verify(hash, hex, p).failureCode, Get(p, "packet_kind"), Get(p, "root_execution");
      var known := p.Obj? && Get(p, "schema") == Str("countergraph.execution-packet/v0.1");
      var ours := known && kind == Str("query_execution");
      var named := ours && IsSha256(hex, Get(p, "packet_digest"));
      && (code == Some("invalid_packet") <==> !p.Obj?)
      && (code == Some("wrong_packet_schema") <==> p.Obj? && !known)
      && (code == Some("unsupported_packet_kind") <==> known && !ours)
      && (code == Some("invalid_packet_digest") <==> ours && !named)
      && (code == Some("packet_digest_error") <==>
            && named
            && Digest(hash, Obj(Put(Put(p.members, "packet_digest", Str(DIGEST_SENTINEL)), "packet_id",
                                    Str(PACKET_ID_SENTINEL)))) == None)
      && (code in {Some("missing_root_execution"), Some("wrong_execution_schema"), None} <==>
            && named
            && Digest(hash, Obj(Put(Put(p.members, "packet_digest", Str(DIGEST_SENTINEL)), "packet_id",
                                    Str(PACKET_ID_SENTINEL)))) != None)
      && (code == Some("missing_root_execution") ==> !e.Obj?)
      && (code == Some("wrong_execution_schema") ==>
            e.Obj? && Get(e, "schema") != Str("countergraph.query-execution/v0.1"))
      && (code == None ==> e.Obj? && Get(e, "schema") == Str("countergraph.query-execution/v0.1"))
  {
    hide Digest, Put, Lookup, IsSha256, IsPacketId, SelfBound, PacketIdFromDigest;
  }

  /** So a packet is reproduced exactly when it is of the fixed schemas and kind, the packet, its
      execution, query and result each hold their own digest, and the digests it repeats agree. */
  lemma ReproducedExactly(hash: string -> string, hex: string -> bool, p: Json)
    ensures Verify(hash, hex, p).executionReproduced <==>
      && p.Obj? && var ms := p.members;
      && Lookup(ms, "schema") == Str("countergraph.execution-packet/v0.1")
      && Lookup(ms, "packet_kind") == Str("query_execution")
      && HoldsPacketDigest(hash, hex, ms)
      && Lookup(ms, "packet_id") == Str("cg:execution-packet:sha256:" + Lookup(ms, "packet_digest").s[7..])
      && HoldsOwnDigest(hash, hex, Lookup(ms, "root_execution"), "execution_digest")
      && var e := Lookup(ms, "root_execution").members;
      && Lookup(e, "schema") == Str("countergraph.query-execution/v0.1")
      && HoldsOwnDigest(hash, hex, Lookup(e, "query"), "query_digest")
      && HoldsOwnDigest(hash, hex, Lookup(e, "read_result"), "result_digest")
      && Lookup(Lookup(e, "read_result").members, "result_digest") == Lookup(e, "read_result_digest")
      && IsSha256(hex, Get(Get(Lookup(e, "query"), "source_requirement"), "projection_digest"))
  {
    hide Verify, Canonical, CanonWalk, Put, Lookup, Get, IsSha256, HoldsOwnDigest, Digest;
    ConclusionsExactly(hash, hex, p);
    if p.Obj? {
      var x := Lookup(p.members, "root_execution");
      OwnDigestDict(hash, hex, x, "execution_digest");
      if x.Obj? { OwnDigestDict(hash, hex, Lookup(x.members, "read_result"), "result_digest"); }
    }
  }

  // ----- a verified digest names one packet -----

  lemma ReproducedMeans(hash: string -> string, hex: string -> bool, p: Json)
    requires Verify(hash, hex, p).executionReproduced
    ensures p.Obj? && var ms := p.members;
      && IsSha256(hex, Lookup(ms, "packet_digest")) && IsPacketId(hex, Lookup(ms, "packet_id"))
      && Digest(hash, Obj(MaskPacket(ms))) == Some(Lookup(ms, "packet_digest").s)
      && Lookup(ms, "packet_id").s == PacketIdFromDigest(Lookup(ms, "packet_digest").s)
  {
    hide Canonical, CanonWalk, Lookup, MaskPacket, IsSha256, IsPacketId, SelfBound, Digest;
  }

  /** Two verified packets with the same packet digest are equal as Python values, unless their
      masked canonical texts are a hash collision. */
  lemma ReproducedPacketsEqual(hash: string -> string, hex: string -> bool, p: Json, q: Json)
    requires WellFormed(p) && WellFormed(q)
    requires Verify(hash, hex, p).executionReproduced && Verify(hash, hex, q).executionReproduced
    requires Get(p, "packet_digest") == Get(q, "packet_digest")
    requires p.Obj? && q.Obj?
    requires NoCollision(hash, CanonicalText(Obj(MaskPacket(p.members))),
                         CanonicalText(Obj(MaskPacket(q.members))))
    ensures Abs(p) == Abs(q)
  {
    hide *;
    ReproducedMeans(hash, hex, p);
    ReproducedMeans(hash, hex, q);
    var ms, ns := p.members, q.members;
    GetMember(p, "packet_digest");
    GetMember(q, "packet_digest");
    MaskedValuesEqual(hash, ms, ns);
    StringFields(hex, ms);
    StringFields(hex, ns);
    MaskedMapsEqual(AbsMembers(ms), AbsMembers(ns), "packet_digest", "packet_id",
                    VStr(DIGEST_SENTINEL), VStr(PACKET_ID_SENTINEL));
    AbsOfDict(ms);
    AbsOfDict(ns);
  }

  lemma GetMember(p: Json, k: string)
    requires p.Obj?
    ensures Get(p, k) == Lookup(p.members, k)
  {}

  lemma AbsOfDict(ms: seq<Member>)
    ensures Abs(Obj(ms)) == VObj(AbsMembers(ms))
  {}

  lemma MaskedValuesEqual(hash: string -> string, ms: seq<Member>, ns: seq<Member>)
    requires WellFormed(Obj(ms)) && WellFormed(Obj(ns))
    requires Digest(hash, Obj(MaskPacket(ms))).Some?
    requires Digest(hash, Obj(MaskPacket(ms))) == Digest(hash, Obj(MaskPacket(ns)))
    requires NoCollision(hash, CanonicalText(Obj(MaskPacket(ms))), CanonicalText(Obj(MaskPacket(ns))))
    ensures
      AbsMembers(ms)["packet_digest" := VStr(DIGEST_SENTINEL)]["packet_id" := VStr(PACKET_ID_SENTINEL)]
      == AbsMembers(ns)["packet_digest" := VStr(DIGEST_SENTINEL)]["packet_id" := VStr(PACKET_ID_SENTINEL)]
  {
    hide *;
    MaskedWellFormed(ms);
    MaskedWellFormed(ns);
    EqualDigests(hash, Obj(MaskPacket(ms)), Obj(MaskPacket(ns)));
    AbsOfDict(MaskPacket(ms));
    AbsOfDict(MaskPacket(ns));
  }

  /** The two masked fields of a verified packet are strings the value map holds. */
  lemma StringFields(hex: string -> bool, ms: seq<Member>)
    requires WellFormed(Obj(ms))
    requires IsSha256(hex, Lookup(ms, "packet_digest")) && IsPacketId(hex, Lookup(ms, "packet_id"))
    ensures Lookup(ms, "packet_digest").Str? && Lookup(ms, "packet_id").Str?
    ensures "packet_digest" in AbsMembers(ms) && "packet_id" in AbsMembers(ms)
    ensures AbsMembers(ms)["packet_digest"] == VStr(Lookup(ms, "packet_digest").s)
    ensures AbsMembers(ms)["packet_id"] == VStr(Lookup(ms, "packet_id").s)
  {
    hide Lookup, AbsMembers;
    StringField(ms, "packet_digest");
    StringField(ms, "packet_id");
  }

  lemma MaskedWellFormed(ms: seq<Member>)
    requires WellFormed(Obj(ms))
    ensures WellFormed(Obj(MaskPacket(ms)))
    ensures AbsMembers(MaskPacket(ms))
         == AbsMembers(ms)["packet_digest" := VStr(DIGEST_SENTINEL)]["packet_id" := VStr(PACKET_ID_SENTINEL)]
  {
    var d, id := Str(DIGEST_SENTINEL), Str(PACKET_ID_SENTINEL);
    WellFormedPut(ms, "packet_digest", d);
    AbsPut(ms, "packet_digest", d);
    WellFormedPut(Put(ms, "packet_digest", d), "packet_id", id);
    AbsPut(Put(ms, "packet_digest", d), "packet_id", id);
  }

  lemma StringField(ms: seq<Member>, k: string)
    requires WellFormed(Obj(ms))
    ensures Lookup(ms, k) != Null ==> k in AbsMembers(ms) && AbsMembers(ms)[k] == Abs(Lookup(ms, k))
  {
    AbsLookup(ms, k);
    LookupNull(ms, k);
  }

  lemma {:induction false} LookupNull(ms: seq<Member>, k: string)
    ensures !HasKey(ms, k) ==> Lookup(ms, k) == Null
  {
    if ms != [] { LookupNull(ms[1..], k); }
  }

  lemma MaskedMapsEqual(a: map<string, Value>, b: map<string, Value>, j: string, k: string, x: Value, y: Value)
    requires a[j := x][k := y] == b[j := x][k := y]
    requires j in a && j in b && a[j] == b[j]
    requires k in a && k in b && a[k] == b[k]
    ensures a == b
  {
    var m, n := a[j := x][k := y], b[j := x][k := y];
    assert m.Keys == a.Keys && n.Keys == b.Keys;
    forall i | i in a && i != j && i != k ensures a[i] == b[i] {
      assert m[i] == a[i] && n[i] == b[i];
    }
  }
}
