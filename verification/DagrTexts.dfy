/** `dagr_v02.py` and `dagr_authority_context.py`: the two preimages and the findings of a receipt,
    told by the named members alone. */
module DagrTexts {
  import opened JsonValue
  import opened PyText
  import opened LinePreimage
  import R = DagrReceipt
  import C = DagrAuthorityContext

  /** The line `name=value`, and what follows it. */
  function Row(name: string, value: string, rest: string): string { name + "=" + value + ['\n'] + rest }

  lemma RowFirst(name: string, value: string, names: seq<string>, values: seq<string>)
    requires |names| == |values|
    ensures LinesText(Labelled([name] + names, [value] + values)) == Row(name, value, LinesText(Labelled(names, values)))
  {
    assert ([name] + names)[1..] == names && ([value] + values)[1..] == values;
    assert Labelled([name] + names, [value] + values)[1..] == Labelled(names, values);
  }

  lemma NoRows()
    ensures LinesText(Labelled([], [])) == ""
  {}

  /** The lines from place k on. */
  function From(names: seq<string>, values: seq<string>, k: nat): string
    requires |names| == |values| && k <= |names|
  {
    LinesText(Labelled(names[k..], values[k..]))
  }

  lemma RowAt(names: seq<string>, values: seq<string>, k: nat)
    requires |names| == |values| && k < |names|
    ensures From(names, values, k) == Row(names[k], values[k], From(names, values, k + 1))
  {
    hide LinesText, Labelled, Row;
    RowFirst(names[k], values[k], names[k + 1..], values[k + 1..]);
    assert [names[k]] + names[k + 1..] == names[k..] && [values[k]] + values[k + 1..] == values[k..];
  }

  // ----- the receipt -----

  /** The thirteen texts a receipt's digest is over. */
  datatype Told = Told(
    schema: string, receiptId: string, domain: string, producerId: string, producerVersion: string, issuedAt: string,
    subjectDigest: string, inputDigest: string, decisionDomain: string, decisionVocabulary: string,
    decisionDigest: string, contractId: string, contractDigest: string)

  predicate Tells(receipt: Json, t: Told) {
    var decision, contract := Get(receipt, "decision_ref"), Get(receipt, "contract_ref");
    && Get(receipt, "schema") == Str(t.schema) && Get(receipt, "receipt_id") == Str(t.receiptId)
    && Get(receipt, "domain") == Str(t.domain) && Get(receipt, "producer_id") == Str(t.producerId)
    && Get(receipt, "producer_version") == Str(t.producerVersion) && Get(receipt, "issued_at") == Str(t.issuedAt)
    && Get(receipt, "subject_digest") == Str(t.subjectDigest) && Get(receipt, "input_digest") == Str(t.inputDigest)
    && Get(decision, "domain") == Str(t.decisionDomain) && Get(decision, "vocabulary") == Str(t.decisionVocabulary)
    && Get(decision, "digest") == Str(t.decisionDigest)
    && Get(contract, "contract_id") == Str(t.contractId) && Get(contract, "digest") == Str(t.contractDigest)
  }

  function ReceiptText(t: Told): string {
    "DAGR-RECEIPT-V0.1" + ['\n'] +
    Row("schema", t.schema, Row("receipt_id", t.receiptId, Row("domain", t.domain, Row("producer_id", t.producerId,
    Row("producer_version", t.producerVersion, Row("issued_at", t.issuedAt,
    Row("subject_digest", t.subjectDigest, Row("input_digest", t.inputDigest,
    Row("decision_domain", t.decisionDomain, Row("decision_vocabulary", t.decisionVocabulary,
    Row("decision_digest", t.decisionDigest, Row("contract_id", t.contractId,
    Row("contract_digest", t.contractDigest, "")))))))))))))
  }

  function Thirteen(t: Told): (v: seq<string>)
    ensures |v| == 13
  {
    [t.schema, t.receiptId, t.domain, t.producerId, t.producerVersion, t.issuedAt, t.subjectDigest, t.inputDigest,
     t.decisionDomain, t.decisionVocabulary, t.decisionDigest, t.contractId, t.contractDigest]
  }

  lemma ThirteenRows(n: seq<string>, v: seq<string>)
    requires |n| == |v| == 13
    ensures LinesText(Labelled(n, v)) ==
      Row(n[0], v[0], Row(n[1], v[1], Row(n[2], v[2], Row(n[3], v[3],
      Row(n[4], v[4], Row(n[5], v[5], Row(n[6], v[6], Row(n[7], v[7],
      Row(n[8], v[8], Row(n[9], v[9], Row(n[10], v[10], Row(n[11], v[11], Row(n[12], v[12], "")))))))))))))
  {
    hide LinesText, Labelled, Row;
    assert n[0..] == n && v[0..] == v && n[13..] == [] && v[13..] == [];
    NoRows();
    assert From(n, v, 0) == LinesText(Labelled(n, v)) && From(n, v, 13) == "";
    hide From;
    forall k: nat | k < 13 ensures From(n, v, k) == Row(n[k], v[k], From(n, v, k + 1)) { RowAt(n, v, k); }
  }

  lemma TextOfThirteen(t: Told)
    ensures LinesText([R.HEADER] + Labelled(R.NAMES, Thirteen(t))) == ReceiptText(t)
  {
    ThirteenRows(R.NAMES, Thirteen(t));
    LinesTextAppend([R.HEADER], Labelled(R.NAMES, Thirteen(t)));
    assert LinesText([R.HEADER]) == R.HEADER + ['\n'];
    hide LinesText, Labelled, Row;
  }

  /** Where the receipt keeps each of the thirteen. */
  function Place(receipt: Json, i: nat): Json
    requires i < 13
  {
    var decision, contract := Get(receipt, "decision_ref"), Get(receipt, "contract_ref");
    match i
    case 0 => Get(receipt, "schema")
    case 1 => Get(receipt, "receipt_id")
    case 2 => Get(receipt, "domain")
    case 3 => Get(receipt, "producer_id")
    case 4 => Get(receipt, "producer_version")
    case 5 => Get(receipt, "issued_at")
    case 6 => Get(receipt, "subject_digest")
    case 7 => Get(receipt, "input_digest")
    case 8 => Get(decision, "domain")
    case 9 => Get(decision, "vocabulary")
    case 10 => Get(decision, "digest")
    case 11 => Get(contract, "contract_id")
    case _ => Get(contract, "digest")
  }

  lemma PlaceAt(receipt: Json, i: nat)
    requires i < 13
    ensures R.TextAt(receipt, R.PATHS[i]) == if Place(receipt, i).Str? then Some(Place(receipt, i).s) else None
  {
    R.WalkOne(receipt);
    R.WalkTwo(receipt);
    hide R.Walk, Get;
  }

  lemma PlacesTold(receipt: Json, v: seq<string>)
    requires |v| == 13
    ensures R.Fields(receipt) == Some(v) <==> forall i: nat :: i < 13 ==> Place(receipt, i) == Str(v[i])
  {
    forall i: nat | i < 13
      ensures R.TextAt(receipt, R.PATHS[i]) == if Place(receipt, i).Str? then Some(Place(receipt, i).s) else None
    {
      PlaceAt(receipt, i);
    }
    assert |R.PATHS| == 13;
    hide R.TextAt, Place;
    if R.Fields(receipt) == Some(v) {
      forall i: nat | i < 13 ensures Place(receipt, i) == Str(v[i]) { assert R.TextAt(receipt, R.PATHS[i]) == Some(v[i]); }
    }
    if forall i: nat :: i < 13 ==> Place(receipt, i) == Str(v[i]) {
      assert forall i: nat :: i < 13 ==> R.TextAt(receipt, R.PATHS[i]) == Some(v[i]);
      assert R.Fields(receipt).Some?;
      assert R.Fields(receipt).value == v;
    }
  }

  lemma TextsTold(receipt: Json, t: Told)
    ensures R.Fields(receipt) == Some(Thirteen(t)) <==> Tells(receipt, t)
  {
    PlacesTold(receipt, Thirteen(t));
    hide Get, R.Fields;
    var v := Thirteen(t);
    assert Place(receipt, 0) == Get(receipt, "schema") && Place(receipt, 1) == Get(receipt, "receipt_id")
        && Place(receipt, 2) == Get(receipt, "domain") && Place(receipt, 3) == Get(receipt, "producer_id")
        && Place(receipt, 4) == Get(receipt, "producer_version") && Place(receipt, 5) == Get(receipt, "issued_at")
        && Place(receipt, 6) == Get(receipt, "subject_digest") && Place(receipt, 7) == Get(receipt, "input_digest");
    var decision, contract := Get(receipt, "decision_ref"), Get(receipt, "contract_ref");
    assert Place(receipt, 8) == Get(decision, "domain") && Place(receipt, 9) == Get(decision, "vocabulary")
        && Place(receipt, 10) == Get(decision, "digest")
        && Place(receipt, 11) == Get(contract, "contract_id") && Place(receipt, 12) == Get(contract, "digest");
  }

  /** A receipt has a preimage exactly when all thirteen members are texts, and then it is the fixed
      header and one labelled line for each, in this order. */
  lemma ReceiptTextExactly(receipt: Json, text: string)
    ensures R.Preimage(receipt) == Some(text) <==> exists t :: Tells(receipt, t) && text == ReceiptText(t)
  {
    hide Tells, ReceiptText, Thirteen, R.NAMES, R.PATHS, R.HEADER, LinesText, Labelled, R.Fields;
    if R.Preimage(receipt) == Some(text) {
      var v := R.Fields(receipt).value;
      var t := ToldBy(receipt, v);
      TextsTold(receipt, t);
      TextOfThirteen(t);
    }
    if t :| Tells(receipt, t) && text == ReceiptText(t) {
      TextsTold(receipt, t);
      TextOfThirteen(t);
    }
  }

  lemma ToldBy(receipt: Json, v: seq<string>) returns (t: Told)
    requires R.Fields(receipt) == Some(v)
    ensures Thirteen(t) == v
  {
    hide R.TextAt;
    assert |v| == |R.PATHS| == 13;
    t := Told(v[0], v[1], v[2], v[3], v[4], v[5], v[6], v[7], v[8], v[9], v[10], v[11], v[12]);
  }

  /** Lower-case hexadecimal digits, sixty-four of them, behind the prefix. */
  ghost predicate DigestText(v: Json) {
    v.Str? && exists body: string :: v.s == "sha256:" + body && LowerHex64(body)
  }

  predicate LowerHex64(body: string) {
    |body| == 64 && forall i :: 0 <= i < 64 ==> body[i] in "0123456789abcdef"
  }

  lemma HexDigits(c: char)
    ensures R.IsLowerHex(c) <==> c in "0123456789abcdef"
  {
    if R.IsLowerHex(c) {
      var k := if c <= '9' then c as int - '0' as int else c as int - 'a' as int + 10;
      assert "0123456789abcdef"[k] == c;
    }
  }

  lemma DigestTextExactly(v: Json)
    ensures R.IsDigest(v) <==> DigestText(v)
  {
    hide R.IsLowerHex;
    forall c ensures R.IsLowerHex(c) <==> c in "0123456789abcdef" { HexDigits(c); }
    if R.IsDigest(v) {
      assert v.s == "sha256:" + v.s[7..];
      assert LowerHex64(v.s[7..]);
    }
    if v.Str? {
      if body: string :| v.s == "sha256:" + body && LowerHex64(body) {
        assert forall i :: 7 <= i < 71 ==> v.s[i] == body[i - 7];
      }
    }
  }

  /** The five findings of a receipt that is a dict; of anything else all are false. */
  lemma VerdictExactly(hash: string -> string, receipt: Json)
    ensures var f := R.Verdict(hash, receipt);
      var decision, contract, claimed := Get(receipt, "decision_ref"), Get(receipt, "contract_ref"), Get(receipt, "receipt_digest");
      && (f.schemaMatches <==> Get(receipt, "schema") == Str("dagr.receipt/v0.1"))
      && (f.domainQualified <==>
          var d := Get(receipt, "domain");
          d == Str("evidence") || d == Str("memory") || d == Str("action") || d == Str("organization"))
      && (f.decisionDomainMatches <==> Get(receipt, "domain").Str? && Get(decision, "domain") == Get(receipt, "domain"))
      && (f.digestAlgorithmValid <==>
          && DigestText(Get(receipt, "subject_digest")) && DigestText(Get(receipt, "input_digest"))
          && DigestText(claimed) && DigestText(Get(decision, "digest")) && DigestText(Get(contract, "digest")))
      && (f.receiptDigestMatch <==>
          exists t :: Tells(receipt, t) && claimed == Str("sha256:" + hash(ReceiptText(t))))
  {
    NoMembers();
    DigestTextExactly(Get(receipt, "subject_digest"));
    DigestTextExactly(Get(receipt, "input_digest"));
    DigestTextExactly(Get(receipt, "receipt_digest"));
    DigestTextExactly(Get(Get(receipt, "decision_ref"), "digest"));
    DigestTextExactly(Get(Get(receipt, "contract_ref"), "digest"));
    MatchExactly(hash, receipt);
    assert !R.IsDigest(Null);
    hide Get, DigestText, R.IsDigest, Tells, ReceiptText, R.Preimage;
  }

  lemma NoMembers()
    ensures forall j: Json, k :: !j.Obj? ==> Get(j, k) == Null
    ensures forall j: Json, t :: !j.Obj? ==> !Tells(j, t)
  {}

  lemma MatchExactly(hash: string -> string, receipt: Json)
    ensures var p, claimed := R.Preimage(receipt), Get(receipt, "receipt_digest");
      p.Some? && claimed == Str("sha256:" + hash(p.value)) <==>
      exists t :: Tells(receipt, t) && claimed == Str("sha256:" + hash(ReceiptText(t)))
  {
    hide Get, Tells, ReceiptText, R.Preimage;
    var p, claimed := R.Preimage(receipt), Get(receipt, "receipt_digest");
    if p.Some? { ReceiptTextExactly(receipt, p.value); }
    if t :| Tells(receipt, t) && claimed == Str("sha256:" + hash(ReceiptText(t))) {
      ReceiptTextExactly(receipt, ReceiptText(t));
    }
  }

  // ----- the authority context -----

  /** One line for each review role, numbered from zero. */
  function RoleRows(roles: seq<string>, k: nat): string
    requires k <= |roles|
    decreases |roles| - k
  {
    if k == |roles| then "" else Row("review_role_" + IntText(k), roles[k], RoleRows(roles, k + 1))
  }

  function HeadText(c: C.Context): string {
    Row("schema", c.schema, Row("domain", c.domain, Row("transaction_id", c.transactionId,
    Row("transaction_digest", c.transactionDigest, Row("operator_identity_ref", c.operatorIdentityRef,
    Row("authority_profile_ref", c.authorityProfileRef,
    Row("review_role_count", IntText(|c.reviewRoles|), "")))))))
  }

  function TailText(c: C.Context): string {
    var p := c.provenance;
    Row("authority_source", c.authoritySource, Row("authority_genesis_id", p.genesisId,
    Row("authority_genesis_digest", p.genesisDigest, Row("authority_genesis_status", p.status,
    Row("authority_effective_from", p.effectiveFrom, Row("authority_source_ref", p.authoritySourceRef,
    Row("supporting_review_ref", p.supportingReviewRef, "")))))))
  }

  lemma SevenRows(n: seq<string>, v: seq<string>)
    requires |n| == |v| == 7
    ensures LinesText(Labelled(n, v)) ==
      Row(n[0], v[0], Row(n[1], v[1], Row(n[2], v[2], Row(n[3], v[3], Row(n[4], v[4], Row(n[5], v[5], Row(n[6], v[6], "")))))))
  {
    hide LinesText, Labelled, Row;
    assert n[0..] == n && v[0..] == v && n[7..] == [] && v[7..] == [];
    NoRows();
    assert From(n, v, 0) == LinesText(Labelled(n, v)) && From(n, v, 7) == "";
    hide From;
    forall k: nat | k < 7 ensures From(n, v, k) == Row(n[k], v[k], From(n, v, k + 1)) { RowAt(n, v, k); }
  }

  lemma {:induction false} RolesFrom(roles: seq<string>, k: nat)
    requires k <= |roles|
    ensures From(C.RoleNames(|roles|), roles, k) == RoleRows(roles, k)
    decreases |roles| - k
  {
    var names := C.RoleNames(|roles|);
    if k == |roles| {
      assert names[k..] == [] && roles[k..] == [];
      NoRows();
    } else {
      RolesFrom(roles, k + 1);
      RowAt(names, roles, k);
      assert names[k] == C.RoleName(k);
    }
  }

  lemma HeadTold(c: C.Context)
    ensures LinesText(Labelled(C.HEAD_NAMES, C.HeadValues(c))) == HeadText(c)
  {
    SevenRows(C.HEAD_NAMES, C.HeadValues(c));
    hide LinesText, Labelled, Row, IntText;
  }

  lemma TailTold(c: C.Context)
    ensures LinesText(Labelled(C.TAIL_NAMES, C.TailValues(c))) == TailText(c)
  {
    SevenRows(C.TAIL_NAMES, C.TailValues(c));
    hide LinesText, Labelled, Row;
  }

  /** The text digested for a context: the fixed header, a line for each member, the number of roles and
      a numbered line for each of them. */
  lemma ContextTextExactly(c: C.Context)
    ensures C.Preimage(c) == "DAGR-RESOLVED-AUTHORITY-CONTEXT-V0.1" + ['\n'] + HeadText(c) + RoleRows(c.reviewRoles, 0) + TailText(c)
  {
    HeadTold(c);
    TailTold(c);
    C.RolesLabelled(c.reviewRoles);
    RolesFrom(c.reviewRoles, 0);
    var names := C.RoleNames(|c.reviewRoles|);
    assert names[0..] == names && c.reviewRoles[0..] == c.reviewRoles;
    assert LinesText(C.RoleLines(c.reviewRoles)) == RoleRows(c.reviewRoles, 0);
    FourParts(C.HEADER, Labelled(C.HEAD_NAMES, C.HeadValues(c)), C.RoleLines(c.reviewRoles),
              Labelled(C.TAIL_NAMES, C.TailValues(c)));
    hide LinesText, Labelled, HeadText, TailText, RoleRows, C.RoleLines, C.HeadValues, C.TailValues;
  }

  lemma FourParts(header: string, a: seq<string>, b: seq<string>, z: seq<string>)
    ensures LinesText([header] + a + b + z) == header + ['\n'] + LinesText(a) + LinesText(b) + LinesText(z)
  {
    LinesTextAppend([header] + a + b, z);
    LinesTextAppend([header] + a, b);
    LinesTextAppend([header], a);
    assert LinesText([header]) == header + ['\n'];
  }
}
