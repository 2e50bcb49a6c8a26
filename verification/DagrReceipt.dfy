/** `dagr_v02.py`: the receipt preimage and the five findings. */
module DagrReceipt {
  import opened JsonValue
  import opened DigestBinding
  import opened LinePreimage

  const HEADER := "DAGR-RECEIPT-V0.1"
  const SCHEMA := "dagr.receipt/v0.1"
  const DOMAINS := {"evidence", "memory", "action", "organization"}

  const NAMES := ["schema", "receipt_id", "domain", "producer_id", "producer_version", "issued_at",
                  "subject_digest", "input_digest", "decision_domain", "decision_vocabulary",
                  "decision_digest", "contract_id", "contract_digest"]

  /** Where each named field is kept in a receipt, in preimage order. */
  const PATHS: seq<seq<string>> :=
    [["schema"], ["receipt_id"], ["domain"], ["producer_id"], ["producer_version"], ["issued_at"],
     ["subject_digest"], ["input_digest"], ["decision_ref", "domain"], ["decision_ref", "vocabulary"],
     ["decision_ref", "digest"], ["contract_ref", "contract_id"], ["contract_ref", "digest"]]

  /** The node at the end of a chain of keys. */
  function Walk(node: Json, keys: seq<string>): Json
    decreases |keys|
  {
    if keys == [] then node else if !node.Obj? then Null else Walk(Lookup(node.members, keys[0]), keys[1..])
  }

  /** `_safe_str`: the text at the end of a chain of keys. */
  method SafeStr(node: Json, keys: seq<string>) returns (r: Option<string>)
    ensures r == TextAt(node, keys)
  {
    var at, i := node, 0;
    while i < |keys|
      invariant 0 <= i <= |keys|
      invariant Walk(node, keys) == Walk(at, keys[i..])
    {
      assert keys[i..][1..] == keys[i + 1..];
      if !at.Obj? { return None; }
      at := Lookup(at.members, keys[i]);
      i := i + 1;
    }
    r := if at.Str? then Some(at.s) else None;
  }

  function TextAt(node: Json, keys: seq<string>): Option<string> {
    var leaf := Walk(node, keys);
    if leaf.Str? then Some(leaf.s) else None
  }

  /** The thirteen fields in order, provided every one is a text. */
  function TextsAt(receipt: Json, paths: seq<seq<string>>): (r: Option<seq<string>>)
    ensures r.Some? ==> |r.value| == |paths|
    ensures r.Some? <==> forall i :: 0 <= i < |paths| ==> TextAt(receipt, paths[i]).Some?
    ensures r.Some? ==> forall i :: 0 <= i < |paths| ==> TextAt(receipt, paths[i]) == Some(r.value[i])
  {
    if paths == [] then Some([])
    else
      var n := |paths| - 1;
      var front :- TextsAt(receipt, paths[..n]);
      var last :- TextAt(receipt, paths[n]);
      Some(front + [last])
  }

  function Fields(receipt: Json): Option<seq<string>> { TextsAt(receipt, PATHS) }

  function Preimage(receipt: Json): Option<string> {
    var values :- Fields(receipt);
    Some(LinesText([HEADER] + Labelled(NAMES, values)))
  }

  /** `_build_preimage`. */
  method BuildPreimage(receipt: Json) returns (r: Option<string>)
    ensures r == Preimage(receipt)
  {
    hide TextAt, LinesText, Labelled;
    var values := ReadFields(receipt, PATHS);
    if values.None? { return None; }
    var text := FormatLines(HEADER, NAMES, values.value);
    return Some(text);
  }

  method ReadFields(receipt: Json, paths: seq<seq<string>>) returns (r: Option<seq<string>>)
    ensures r == TextsAt(receipt, paths)
  {
    hide TextAt;
    var values := [];
    for k := 0 to |paths|
      invariant |values| == k
      invariant forall i :: 0 <= i < k ==> TextAt(receipt, paths[i]) == Some(values[i])
    {
      var v := SafeStr(receipt, paths[k]);
      if v.None? { return None; }
      values := values + [v.value];
    }
    assert TextsAt(receipt, paths).Some?;
    assert TextsAt(receipt, paths).value == values;
    return Some(values);
  }

  method FormatLines(header: string, names: seq<string>, values: seq<string>) returns (text: string)
    requires |names| == |values|
    ensures text == LinesText([header] + Labelled(names, values))
  {
    LinesTextSnoc([], header);
    text := header + ['\n'];
    assert [] + [header] == [header] && [header] + Labelled(names[..0], values[..0]) == [header];
    assert LinesText([header]) == text;
    for k := 0 to |names|
      invariant text == LinesText([header] + Labelled(names[..k], values[..k]))
    {
      hide LinesText, Labelled;
      LabelledSnoc(names[..k], values[..k], names[k], values[k]);
      assert names[..k + 1] == names[..k] + [names[k]] && values[..k + 1] == values[..k] + [values[k]];
      var line := names[k] + "=" + values[k];
      ghost var done := Labelled(names[..k], values[..k]);
      LinesTextSnoc([header] + done, line);
      assert [header] + (done + [line]) == [header] + done + [line];
      text := text + line + ['\n'];
    }
    assert names[..|names|] == names && values[..|names|] == values;
  }

  lemma {:induction false} LabelledSnoc(names: seq<string>, values: seq<string>, name: string, value: string)
    requires |names| == |values|
    ensures Labelled(names + [name], values + [value]) == Labelled(names, values) + [name + "=" + value]
  {
    if names != [] {
      LabelledSnoc(names[1..], values[1..], name, value);
      assert (names + [name])[1..] == names[1..] + [name] && (values + [value])[1..] == values[1..] + [value];
    } else {
      assert ([name])[1..] == [] && [value][1..] == [];
      assert names + [name] == [name] && values + [value] == [value];
    }
  }

  // ----- the findings -----

  predicate IsLowerHex(c: char) { '0' <= c <= '9' || 'a' <= c <= 'f' }

  /** `_is_digest`. */
  predicate IsDigest(v: Json) {
    v.Str? && |v.s| == 71 && SHA256_PREFIX <= v.s && forall i :: 7 <= i < 71 ==> IsLowerHex(v.s[i])
  }

  datatype Findings = Findings(
    schemaMatches: bool, domainQualified: bool, decisionDomainMatches: bool,
    digestAlgorithmValid: bool, receiptDigestMatch: bool)

  /** `verify_dagr_receipt`. */
  function Verdict(hash: string -> string, receipt: Json): Findings {
    if !receipt.Obj? then Findings(false, false, false, false, false)
    else
      var domain, claimed := Get(receipt, "domain"), Get(receipt, "receipt_digest");
      var decision, contract := Get(receipt, "decision_ref"), Get(receipt, "contract_ref");
      var preimage := Preimage(receipt);
      Findings(
        Get(receipt, "schema") == Str(SCHEMA),
        domain.Str? && domain.s in DOMAINS,
        decision.Obj? && Get(decision, "domain").Str? && Get(decision, "domain") == domain,
        && IsDigest(Get(receipt, "subject_digest")) && IsDigest(Get(receipt, "input_digest"))
        && IsDigest(claimed) && IsDigest(Get(decision, "digest")) && IsDigest(Get(contract, "digest")),
        preimage.Some? && claimed == Str(SHA256_PREFIX + hash(preimage.value)))
  }

  // ----- what the digest binds -----

  ghost predicate NewlineFree(receipt: Json) {
    Fields(receipt).Some? && AllNoNewline(Fields(receipt).value)
  }

  lemma NamesNoNewline()
    ensures AllNoNewline(NAMES) && NoNewline(HEADER)
  {}

  /** The preimage is injective in all thirteen fields, for newline-free values. */
  lemma PreimageInjective(a: Json, b: Json)
    requires NewlineFree(a) && NewlineFree(b)
    ensures Preimage(a) == Preimage(b) <==> Fields(a) == Fields(b)
  {
    if Preimage(a) == Preimage(b) {
      var x, y := Fields(a).value, Fields(b).value;
      hide Labelled;
      NamesNoNewline();
      LabelledNoNewline(NAMES, x);
      LabelledNoNewline(NAMES, y);
      LinesInjective([HEADER] + Labelled(NAMES, x), [HEADER] + Labelled(NAMES, y));
      assert ([HEADER] + Labelled(NAMES, x))[1..] == Labelled(NAMES, x);
      assert ([HEADER] + Labelled(NAMES, y))[1..] == Labelled(NAMES, y);
      LabelledInjective(NAMES, x, y);
    }
  }

  /** Two matching receipts that claim one digest agree on every field, unless their preimages
      collide. */
  lemma MatchingReceiptsAgree(hash: string -> string, a: Json, b: Json)
    requires Verdict(hash, a).receiptDigestMatch && Verdict(hash, b).receiptDigestMatch
    requires Get(a, "receipt_digest") == Get(b, "receipt_digest")
    requires NewlineFree(a) && NewlineFree(b)
    requires NoCollision(hash, Preimage(a).value, Preimage(b).value)
    ensures forall i :: 0 <= i < |PATHS| ==> Walk(a, PATHS[i]) == Walk(b, PATHS[i])
  {
    hide Labelled, LinesText;
    SamePrefix(SHA256_PREFIX, hash(Preimage(a).value), hash(Preimage(b).value));
    PreimageInjective(a, b);
    forall i | 0 <= i < |PATHS| ensures Walk(a, PATHS[i]) == Walk(b, PATHS[i]) {
      assert TextAt(a, PATHS[i]) == TextAt(b, PATHS[i]);
    }
  }

  // ----- exactly which receipts share their preimage -----

  /** A receipt with given texts in the thirteen places. */
  function ReceiptOf(v: seq<string>): Json
    requires |v| == |PATHS|
  {
    Obj([Member("schema", Str(v[0])), Member("receipt_id", Str(v[1])), Member("domain", Str(v[2])),
         Member("producer_id", Str(v[3])), Member("producer_version", Str(v[4])), Member("issued_at", Str(v[5])),
         Member("subject_digest", Str(v[6])), Member("input_digest", Str(v[7])),
         Member("decision_ref", DecisionOf(v[8], v[9], v[10])), Member("contract_ref", ContractOf(v[11], v[12]))])
  }

  function DecisionOf(domain: string, vocabulary: string, digest: string): Json {
    Obj([Member("domain", Str(domain)), Member("vocabulary", Str(vocabulary)), Member("digest", Str(digest))])
  }

  function ContractOf(id: string, digest: string): Json {
    Obj([Member("contract_id", Str(id)), Member("digest", Str(digest))])
  }

  lemma DecisionRead(domain: string, vocabulary: string, digest: string)
    ensures var d := DecisionOf(domain, vocabulary, digest);
      Get(d, "domain") == Str(domain) && Get(d, "vocabulary") == Str(vocabulary) && Get(d, "digest") == Str(digest)
  {
    var ms := DecisionOf(domain, vocabulary, digest).members;
    assert "domain"[1] != "digest"[1];
    LookupAt(ms, "domain", 0);
    LookupAt(ms, "vocabulary", 1);
    LookupAt(ms, "digest", 2);
  }

  lemma ContractRead(id: string, digest: string)
    ensures var c := ContractOf(id, digest); Get(c, "contract_id") == Str(id) && Get(c, "digest") == Str(digest)
  {
    var ms := ContractOf(id, digest).members;
    LookupAt(ms, "contract_id", 0);
    LookupAt(ms, "digest", 1);
  }

  lemma TopKeysDiffer(v: seq<string>)
    requires |v| == |PATHS|
    ensures forall i, j :: 0 <= i < j < 10 ==> ReceiptOf(v).members[i].key != ReceiptOf(v).members[j].key
  {
    assert "schema"[0] != "domain"[0];
    assert "input_digest"[0] != "decision_ref"[0] && "input_digest"[0] != "contract_ref"[0];
    assert "decision_ref"[0] != "contract_ref"[0];
  }

  lemma ReceiptRead(v: seq<string>, i: nat)
    requires |v| == |PATHS| && i < 10
    ensures Get(ReceiptOf(v), ReceiptOf(v).members[i].key) == ReceiptOf(v).members[i].value
  {
    TopKeysDiffer(v);
    hide ReceiptOf;
    LookupAt(ReceiptOf(v).members, ReceiptOf(v).members[i].key, i);
  }

  lemma ReceiptOfFields(v: seq<string>)
    requires |v| == |PATHS|
    ensures Fields(ReceiptOf(v)) == Some(v)
  {
    var r := ReceiptOf(v);
    forall i | 0 <= i < |PATHS| ensures TextAt(r, PATHS[i]) == Some(v[i]) {
      PlacedAt(v, i);
    }
    hide ReceiptOf, TextAt, PATHS;
    assert Fields(r).Some?;
    assert Fields(r).value == v;
  }

  lemma WalkOne(node: Json)
    ensures forall k :: Walk(node, [k]) == Get(node, k)
  {
    forall k ensures Walk(node, [k]) == Get(node, k) { assert [k][1..] == []; }
  }

  lemma WalkTwo(node: Json)
    ensures forall k, l :: Walk(node, [k, l]) == Get(Get(node, k), l)
  {
    forall k, l ensures Walk(node, [k, l]) == Get(Get(node, k), l) {
      assert [k, l][1..] == [l];
      WalkOne(Get(node, k));
    }
  }

  lemma PlacedAt(v: seq<string>, i: nat)
    requires |v| == |PATHS| && i < |PATHS|
    ensures TextAt(ReceiptOf(v), PATHS[i]) == Some(v[i])
  {
    if i < 8 { PlacedOnTop(v, i); } else if i < 11 { PlacedInDecision(v, i); } else { PlacedInContract(v, i); }
  }

  lemma PlacedOnTop(v: seq<string>, i: nat)
    requires |v| == |PATHS| && i < 8
    ensures TextAt(ReceiptOf(v), PATHS[i]) == Some(v[i])
  {
    var r := ReceiptOf(v);
    var k := r.members[i].key;
    ReceiptRead(v, i);
    assert r.members[i].value == Str(v[i]) && PATHS[i] == [k];
    hide Walk, Get, ReceiptOf, PATHS;
    WalkOne(r);
  }

  lemma PlacedInDecision(v: seq<string>, i: nat)
    requires |v| == |PATHS| && 8 <= i < 11
    ensures TextAt(ReceiptOf(v), PATHS[i]) == Some(v[i])
  {
    var r, d := ReceiptOf(v), DecisionOf(v[8], v[9], v[10]);
    ReceiptRead(v, 8);
    assert Get(r, "decision_ref") == d;
    var k := ["domain", "vocabulary", "digest"][i - 8];
    assert PATHS[i] == ["decision_ref", k];
    hide Walk, Get, ReceiptOf, PATHS, DecisionOf;
    DecisionRead(v[8], v[9], v[10]);
    WalkTwo(r);
    assert Walk(r, ["decision_ref", k]) == Get(d, k);
  }

  lemma PlacedInContract(v: seq<string>, i: nat)
    requires |v| == |PATHS| && 11 <= i < |PATHS|
    ensures TextAt(ReceiptOf(v), PATHS[i]) == Some(v[i])
  {
    var r, c := ReceiptOf(v), ContractOf(v[11], v[12]);
    ReceiptRead(v, 9);
    assert Get(r, "contract_ref") == c;
    var k := ["contract_id", "digest"][i - 11];
    assert PATHS[i] == ["contract_ref", k];
    hide Walk, Get, ReceiptOf, PATHS, ContractOf;
    ContractRead(v[11], v[12]);
    WalkTwo(r);
    assert Walk(r, ["contract_ref", k]) == Get(c, k);
  }

  /** A receipt shares its preimage with one that differs in some field exactly when one of its values
      holds a newline followed by its own label, or by the next field's, and an equals sign. */
  lemma SharedPreimageExactly(a: Json)
    requires Fields(a).Some?
    ensures (exists b :: Fields(b).Some? && Fields(b) != Fields(a) && Preimage(b) == Preimage(a))
       <==> Clash(Marks(NAMES), Fields(a).value)
  {
    hide Fields, Marks, ReceiptOf, Clash;
    var v := Fields(a).value;
    NamesUnbordered();
    PreimageWoven(a);
    SharedExactly(Marks(NAMES), v);
    if b :| Fields(b).Some? && Fields(b) != Fields(a) && Preimage(b) == Preimage(a) {
      PreimageWoven(b);
      SamePrefix(HEADER, Woven(Marks(NAMES), Fields(b).value) + ['\n'], Woven(Marks(NAMES), v) + ['\n']);
      SameBefore(Woven(Marks(NAMES), Fields(b).value), Woven(Marks(NAMES), v), ['\n']);
    }
    if Clash(Marks(NAMES), v) {
      var w := ClashShares(Marks(NAMES), v);
      ReceiptOfFields(w);
      PreimageWoven(ReceiptOf(w));
    }
  }

  lemma NamesUnbordered()
    ensures AllUnbordered(Marks(NAMES))
  {
    hide NAMES;
    NamesNoNewline();
    forall i | 0 <= i < |NAMES| ensures Unbordered(Marks(NAMES)[i]) { MarkUnbordered(NAMES[i]); }
  }

  lemma FieldCount(a: Json)
    requires Fields(a).Some?
    ensures |Fields(a).value| == |NAMES|
  {
    hide TextsAt;
  }

  lemma PreimageWoven(a: Json)
    requires Fields(a).Some?
    ensures |Fields(a).value| == |NAMES|
    ensures Preimage(a) == Some(HEADER + (Woven(Marks(NAMES), Fields(a).value) + ['\n']))
  {
    FieldCount(a);
    PreimageText(a);
    hide *;
    LinesWoven(HEADER, NAMES, Fields(a).value);
  }

  lemma PreimageText(a: Json)
    requires Fields(a).Some? && |Fields(a).value| == |NAMES|
    ensures Preimage(a) == Some(LinesText([HEADER] + Labelled(NAMES, Fields(a).value)))
  {
    hide Fields, LinesText, Labelled, NAMES, HEADER;
  }

  // ----- sealing -----

  lemma WalkElsewhere(ms: seq<Member>, k: string, v: Json, keys: seq<string>)
    requires keys != [] && keys[0] != k
    ensures Walk(Obj(Put(ms, k, v)), keys) == Walk(Obj(ms), keys)
  {
    LookupPut(ms, k, v);
  }

  /** No field of the preimage is kept under `receipt_digest`. */
  lemma DigestApart()
    ensures forall i :: 0 <= i < |PATHS| ==> PATHS[i] != [] && PATHS[i][0] != "receipt_digest"
  {
    assert "subject_digest"[0] != "receipt_digest"[0];
  }

  /** Writing the recomputed digest into a receipt with all thirteen fields makes it match, and
      changes none of them. */
  lemma SealedReceiptMatches(hash: string -> string, ms: seq<Member>)
    requires Fields(Obj(ms)).Some?
    ensures var sealed := Obj(Put(ms, "receipt_digest", Str(SHA256_PREFIX + hash(Preimage(Obj(ms)).value))));
      Verdict(hash, sealed).receiptDigestMatch && Fields(sealed) == Fields(Obj(ms))
  {
    hide Put, Lookup, Walk, LinesText, Labelled, PATHS, NAMES, IsDigest, DOMAINS;
    var v := Str(SHA256_PREFIX + hash(Preimage(Obj(ms)).value));
    LookupPut(ms, "receipt_digest", v);
    DigestApart();
    SameTexts(ms, "receipt_digest", v, PATHS);
  }

  lemma {:induction false} SameTexts(ms: seq<Member>, k: string, v: Json, paths: seq<seq<string>>)
    requires forall i :: 0 <= i < |paths| ==> paths[i] != [] && paths[i][0] != k
    ensures TextsAt(Obj(Put(ms, k, v)), paths) == TextsAt(Obj(ms), paths)
  {
    if paths != [] {
      SameTexts(ms, k, v, paths[..|paths| - 1]);
      WalkElsewhere(ms, k, v, paths[|paths| - 1]);
    }
  }
}
