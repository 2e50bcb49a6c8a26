/** `okf_attested_computation.py`, `verify`: the bridge finding for one declaration over an abstract
    bundle. The bundle is a function from declared paths to what resolving them under the root
    finds; SHA-256 is a parameter. */
module OkfVerify {
  import opened JsonValue
  import opened PyText
  import opened OkfFrontmatter
  import opened OkfRoundTrip
  import opened OkfInertness
  import opened OkfPaths

  type Bytes = seq<nat>

  /** Where a path leads once symbolic links are followed. */
  datatype Resource = Escapes | Missing | NotAFile | Unreadable | File(data: Bytes)

  datatype Bundle = Bundle(resolve: string -> Resource, sha256: Bytes -> string)

  datatype Role = Executor | Attester

  datatype Code =
    | DeclarationMalformed
    | WrongType
    | MissingRuntime
    | MissingExecutorResource
    | MissingExecutorReceipt
    | MissingAttesterResource
    | UnsafeResourceReference(role: Role)
    | ResourceMissing(role: Role)
    | ResourceNotAFile(role: Role)
    | RunEvidenceMalformed
    | ReceiptFieldAbsent(field: string)
    | ResourceBindingMismatch(role: Role)

  /** `failure_codes` is the sorted listing of a set; the set stands for it. */
  datatype Finding = Finding(
    declarationValid: bool,
    resourceBindingsValid: bool,
    receiptShapeSatisfied: bool,
    executorDigest: Option<string>,
    attesterDigest: Option<string>,
    failureCodes: set<Code>)

  predicate Passed(f: Finding) {
    f.declarationValid && f.resourceBindingsValid && f.receiptShapeSatisfied
  }

  function Malformed(): Finding { Finding(false, false, false, None, None, {DeclarationMalformed}) }

  // ----- reading the declaration -----

  function Field(m: map<string, Yaml>, k: string): Yaml { if k in m then m[k] else YNull }

  function Inner(v: Yaml, k: string): Yaml { if v.YMap? then Field(v.m, k) else YNull }

  function NonEmptyText(v: Yaml): Option<string> {
    if v.YStr? && v.s != "" then Some(v.s) else None
  }

  function ExecutorPath(m: map<string, Yaml>): Option<string> {
    NonEmptyText(Inner(Field(m, "executor"), "resource"))
  }

  function AttesterPath(m: map<string, Yaml>): Option<string> {
    NonEmptyText(Inner(Field(m, "attester"), "resource"))
  }

  /** The declared receipt fields, when they are a list of non-empty texts. */
  function ReceiptFields(m: map<string, Yaml>): Option<seq<string>> {
    var v := Inner(Field(m, "executor"), "receipt");
    if v.YList? && forall i :: 0 <= i < |v.items| ==> v.items[i].YStr? && v.items[i].s != "" then
      Some(seq(|v.items|, i requires 0 <= i < |v.items| => v.items[i].s))
    else None
  }

  predicate ParametersOk(m: map<string, Yaml>) {
    Field(m, "parameters").YNull? || Field(m, "parameters").YMap?
  }

  function When(b: bool, c: Code): set<Code> { if b then {c} else {} }

  function HeaderCodes(m: map<string, Yaml>): set<Code> {
    When(Field(m, "type") != YStr("Attested Computation"), WrongType)
    + When(NonEmptyText(Field(m, "runtime")).None?, MissingRuntime)
  }

  function ExecutorCodes(m: map<string, Yaml>): set<Code> {
    When(ExecutorPath(m).None?, MissingExecutorResource)
    + When(ReceiptFields(m).None?, MissingExecutorReceipt)
  }

  function DeclarationCodes(m: map<string, Yaml>): set<Code> {
    HeaderCodes(m) + ExecutorCodes(m)
    + When(AttesterPath(m).None?, MissingAttesterResource)
    + When(!ParametersOk(m), DeclarationMalformed)
  }

  // ----- binding resources -----

  function Locate(b: Bundle, path: string): Resource {
    if SafeShape(path) then b.resolve(path) else Escapes
  }

  function BindingCodes(b: Bundle, path: Option<string>, role: Role): set<Code> {
    match path
    case None => {}
    case Some(p) =>
      match Locate(b, p)
      case Escapes => {UnsafeResourceReference(role)}
      case Missing => {ResourceMissing(role)}
      case NotAFile => {ResourceNotAFile(role)}
      case Unreadable => {ResourceMissing(role)}
      case File(_) => {}
  }

  function BindingDigest(b: Bundle, path: Option<string>): Option<string> {
    match path
    case None => None
    case Some(p) =>
      match Locate(b, p)
      case File(data) => Some("sha256:" + b.sha256(data))
      case _ => None
  }

  // ----- the run evidence -----

  predicate IsHex(c: char) { '0' <= c <= '9' || 'a' <= c <= 'f' }

  predicate IsSha256Ref(v: Json) {
    && v.Str? && StartsWith(v.s, "sha256:") && |v.s| == 71
    && forall i :: 7 <= i < 71 ==> IsHex(v.s[i])
  }

  predicate ClaimConflicts(claim: Json, digest: Option<string>) {
    claim != Null && (!IsSha256Ref(claim) || Some(claim.s) != digest)
  }

  /** Run evidence that is no JSON object, or was not supplied, is malformed. */
  function EvidenceMembers(run: Option<Json>): Option<seq<Member>> {
    if run.Some? && run.value.Obj? then Some(run.value.members) else None
  }

  function AbsentFields(fields: seq<string>, ms: seq<Member>): set<Code> {
    set i | 0 <= i < |fields| && !HasKey(ms, fields[i]) :: ReceiptFieldAbsent(fields[i])
  }

  function ClaimCodes(ms: seq<Member>, executorDigest: Option<string>, attesterDigest: Option<string>): set<Code> {
    When(ClaimConflicts(Lookup(ms, "executor_resource_digest"), executorDigest), ResourceBindingMismatch(Executor))
    + When(ClaimConflicts(Lookup(ms, "attester_resource_digest"), attesterDigest), ResourceBindingMismatch(Attester))
  }

  // ----- the finding as a function of the frontmatter -----

  function Judge(b: Bundle, m: map<string, Yaml>, run: Option<Json>): Finding {
    var declaration := DeclarationCodes(m);
    var executor, attester := BindingDigest(b, ExecutorPath(m)), BindingDigest(b, AttesterPath(m));
    var binding := BindingCodes(b, ExecutorPath(m), Executor) + BindingCodes(b, AttesterPath(m), Attester);
    match EvidenceMembers(run)
    case None =>
      Finding(declaration == {}, executor.Some? && attester.Some?, false, executor, attester,
              declaration + binding + {RunEvidenceMalformed})
    case Some(ms) =>
      var claims := ClaimCodes(ms, executor, attester);
      var absent := match ReceiptFields(m) case Some(fs) => AbsentFields(fs, ms) case None => {};
      Finding(declaration == {}, executor.Some? && attester.Some? && claims == {},
              ReceiptFields(m).Some? && absent == {}, executor, attester,
              declaration + binding + absent + claims)
  }

  function VerifyText(b: Bundle, text: Option<string>, run: Option<Json>): Finding {
    match text
    case None => Malformed()
    case Some(t) =>
      match ParseFrontmatter(t)
      case Err(_) => Malformed()
      case Ok(m) => Judge(b, m, run)
  }

  // ----- the verifier, step by step -----

  class Verification {
    var findings: seq<Code>
    var resourceBindingsValid: bool
    const bundle: Bundle

    constructor (b: Bundle)
      ensures findings == [] && resourceBindingsValid && bundle == b
    {
      findings, resourceBindingsValid, bundle := [], true, b;
    }

    ghost function Codes(): set<Code>
      reads this
    {
      set c | c in findings
    }

    method Add(c: Code)
      modifies this`findings
      ensures findings == old(findings) + [c]
      ensures Codes() == old(Codes()) + {c}
    {
      findings := findings + [c];
    }

    method CheckHeader(m: map<string, Yaml>)
      modifies this`findings
      ensures Codes() == old(Codes()) + HeaderCodes(m)
    {
      if Field(m, "type") != YStr("Attested Computation") { Add(WrongType); }
      if NonEmptyText(Field(m, "runtime")).None? { Add(MissingRuntime); }
    }

    method CheckExecutor(m: map<string, Yaml>) returns (path: Option<string>, fields: Option<seq<string>>)
      modifies this`findings
      ensures path == ExecutorPath(m) && fields == ReceiptFields(m)
      ensures Codes() == old(Codes()) + ExecutorCodes(m)
    {
      path, fields := None, None;
      var declared := Field(m, "executor");
      if !declared.YMap? {
        Add(MissingExecutorResource);
        Add(MissingExecutorReceipt);
      } else {
        path := NonEmptyText(Inner(declared, "resource"));
        if path.None? { Add(MissingExecutorResource); }
        fields := ReceiptFields(m);
        if fields.None? { Add(MissingExecutorReceipt); }
      }
    }

    method CheckAttester(m: map<string, Yaml>) returns (path: Option<string>)
      modifies this`findings
      ensures path == AttesterPath(m)
      ensures Codes() == old(Codes()) + When(path.None?, MissingAttesterResource)
    {
      path := None;
      var declared := Field(m, "attester");
      if !declared.YMap? {
        Add(MissingAttesterResource);
      } else {
        path := NonEmptyText(Inner(declared, "resource"));
        if path.None? { Add(MissingAttesterResource); }
      }
    }

    method CheckDeclaration(m: map<string, Yaml>)
      returns (executor: Option<string>, fields: Option<seq<string>>, attester: Option<string>)
      modifies this`findings
      ensures executor == ExecutorPath(m) && fields == ReceiptFields(m) && attester == AttesterPath(m)
      ensures Codes() == old(Codes()) + DeclarationCodes(m)
    {
      hide HeaderCodes, ExecutorCodes, ParametersOk, ExecutorPath, AttesterPath, ReceiptFields;
      CheckHeader(m);
      executor, fields := CheckExecutor(m);
      attester := CheckAttester(m);
      if !ParametersOk(m) { Add(DeclarationMalformed); }
    }

    /** No declaration code was recorded. */
    method DeclarationValid(ghost m: map<string, Yaml>) returns (ok: bool)
      requires Codes() == DeclarationCodes(m)
      ensures ok == (DeclarationCodes(m) == {})
    {
      ok := forall c :: c in DECLARATION_CODES ==> c !in findings;
      assert forall c :: c in DeclarationCodes(m) ==> c in DECLARATION_CODES;
      assert forall c :: c in findings ==> c in Codes();
    }

    method BindResource(path: Option<string>, role: Role) returns (digest: Option<string>)
      modifies this
      ensures digest == BindingDigest(bundle, path)
      ensures Codes() == old(Codes()) + BindingCodes(bundle, path, role)
      ensures resourceBindingsValid == (old(resourceBindingsValid) && digest.Some?)
    {
      if path.None? {
        resourceBindingsValid := false;
        return None;
      }
      var found := if SafeShape(path.value) then bundle.resolve(path.value) else Escapes;
      match found {
        case Escapes => Add(UnsafeResourceReference(role));
        case Missing => Add(ResourceMissing(role));
        case NotAFile => Add(ResourceNotAFile(role));
        case Unreadable => Add(ResourceMissing(role));
        case File(data) => return Some("sha256:" + bundle.sha256(data));
      }
      resourceBindingsValid := false;
      return None;
    }

    method CheckFields(fields: seq<string>, ms: seq<Member>) returns (ok: bool)
      modifies this`findings
      ensures ok == (AbsentFields(fields, ms) == {})
      ensures Codes() == old(Codes()) + AbsentFields(fields, ms)
    {
      ok := true;
      assert fields[..|fields|] == fields;
      for i := 0 to |fields|
        invariant ok == (AbsentFields(fields[..i], ms) == {})
        invariant Codes() == old(Codes()) + AbsentFields(fields[..i], ms)
      {
        AbsentOneMore(fields, ms, i);
        if !HasKey(ms, fields[i]) {
          Add(ReceiptFieldAbsent(fields[i]));
          ok := false;
        }
      }
    }

    method CheckClaims(ms: seq<Member>, executor: Option<string>, attester: Option<string>)
      modifies this
      ensures Codes() == old(Codes()) + ClaimCodes(ms, executor, attester)
      ensures resourceBindingsValid == (old(resourceBindingsValid) && ClaimCodes(ms, executor, attester) == {})
    {
      if ClaimConflicts(Lookup(ms, "executor_resource_digest"), executor) {
        Add(ResourceBindingMismatch(Executor));
        resourceBindingsValid := false;
      }
      if ClaimConflicts(Lookup(ms, "attester_resource_digest"), attester) {
        Add(ResourceBindingMismatch(Attester));
        resourceBindingsValid := false;
      }
    }

    method CheckEvidence(run: Option<Json>, fields: Option<seq<string>>, executor: Option<string>,
                         attester: Option<string>) returns (satisfied: bool)
      modifies this
      ensures Codes() == old(Codes()) + EvidenceCodes(run, fields, executor, attester)
      ensures satisfied == (EvidenceMembers(run).Some? && fields.Some?
                            && AbsentFields(fields.value, EvidenceMembers(run).value) == {})
      ensures resourceBindingsValid == (old(resourceBindingsValid)
        && (EvidenceMembers(run).Some? ==> ClaimCodes(EvidenceMembers(run).value, executor, attester) == {}))
    {
      hide ClaimCodes, AbsentFields;
      satisfied := true;
      if run.None? || !run.value.Obj? {
        Add(RunEvidenceMalformed);
        satisfied := false;
      } else {
        var ms := run.value.members;
        if fields.None? {
          satisfied := false;
        } else {
          satisfied := CheckFields(fields.value, ms);
        }
        CheckClaims(ms, executor, attester);
      }
    }
  }

  function EvidenceCodes(run: Option<Json>, fields: Option<seq<string>>, executor: Option<string>,
                         attester: Option<string>): set<Code>
  {
    match EvidenceMembers(run)
    case None => {RunEvidenceMalformed}
    case Some(ms) =>
      (match fields case Some(fs) => AbsentFields(fs, ms) case None => {}) + ClaimCodes(ms, executor, attester)
  }

  lemma AbsentOneMore(fields: seq<string>, ms: seq<Member>, i: nat)
    requires i < |fields|
    ensures AbsentFields(fields[..i + 1], ms)
         == AbsentFields(fields[..i], ms) + When(!HasKey(ms, fields[i]), ReceiptFieldAbsent(fields[i]))
  {
    var a, b := fields[..i], fields[..i + 1];
    assert b == a + [fields[i]];
    forall c | c in AbsentFields(a, ms) ensures c in AbsentFields(b, ms) {
      var j :| 0 <= j < i && !HasKey(ms, a[j]) && c == ReceiptFieldAbsent(a[j]);
      assert b[j] == a[j];
    }
    assert b[i] == fields[i];
    forall c | c in AbsentFields(b, ms)
      ensures c in AbsentFields(a, ms) || (!HasKey(ms, fields[i]) && c == ReceiptFieldAbsent(fields[i]))
    {
      var j :| 0 <= j <= i && !HasKey(ms, b[j]) && c == ReceiptFieldAbsent(b[j]);
      if j < i { assert a[j] == b[j]; }
    }
  }

  const DECLARATION_CODES: set<Code> :=
    {WrongType, MissingRuntime, MissingExecutorResource, MissingExecutorReceipt,
     MissingAttesterResource, DeclarationMalformed}

  lemma JudgeCodes(b: Bundle, m: map<string, Yaml>, run: Option<Json>)
    ensures var executor, attester := BindingDigest(b, ExecutorPath(m)), BindingDigest(b, AttesterPath(m));
      Judge(b, m, run).failureCodes ==
        DeclarationCodes(m) + BindingCodes(b, ExecutorPath(m), Executor) + BindingCodes(b, AttesterPath(m), Attester)
        + EvidenceCodes(run, ReceiptFields(m), executor, attester)
  {
    hide ExecutorPath, AttesterPath, ReceiptFields, ClaimCodes, BindingCodes, BindingDigest, DeclarationCodes,
         AbsentFields;
  }

  method JudgeLoop(b: Bundle, m: map<string, Yaml>, run: Option<Json>) returns (f: Finding)
    ensures f == Judge(b, m, run)
  {
    hide ExecutorPath, AttesterPath, ReceiptFields, ClaimCodes, BindingCodes, BindingDigest,
         DeclarationCodes, AbsentFields;
    var v := new Verification(b);
    var executorPath, fields, attesterPath := v.CheckDeclaration(m);
    var declarationValid := v.DeclarationValid(m);
    var executor := v.BindResource(executorPath, Executor);
    var attester := v.BindResource(attesterPath, Attester);
    var satisfied := v.CheckEvidence(run, fields, executor, attester);
    var codes := set c | c in v.findings;
    assert codes == v.Codes();
    JudgeCodes(b, m, run);
    hide Judge, EvidenceCodes;
    f := Finding(declarationValid, v.resourceBindingsValid, satisfied, executor, attester, codes);
  }

  method Verify(b: Bundle, text: Option<string>, run: Option<Json>) returns (f: Finding)
    ensures f == VerifyText(b, text, run)
  {
    if text.None? { return Malformed(); }
    var parsed := ParseFrontmatterLoop(text.value);
    if parsed.Err? { return Malformed(); }
    f := JudgeLoop(b, parsed.value, run);
  }

  // ----- what the finding says -----

  /** A finding passes exactly when it carries no failure code. */
  lemma PassedIffNoCodes(b: Bundle, text: Option<string>, run: Option<Json>)
    ensures var f := VerifyText(b, text, run); Passed(f) <==> f.failureCodes == {}
  {
    if text.Some? && ParseFrontmatter(text.value).Ok? {
      var m := ParseFrontmatter(text.value).value;
      Unbound(b, ExecutorPath(m), Executor);
      Unbound(b, AttesterPath(m), Attester);
      var d := DeclarationCodes(m);
      assert ExecutorPath(m).None? ==> MissingExecutorResource in d;
      assert AttesterPath(m).None? ==> MissingAttesterResource in d;
      assert ReceiptFields(m).None? ==> MissingExecutorReceipt in d;
      if EvidenceMembers(run).None? {
        assert RunEvidenceMalformed in VerifyText(b, text, run).failureCodes;
      }
    } else {
      assert DeclarationMalformed in Malformed().failureCodes;
    }
  }

  lemma Unbound(b: Bundle, path: Option<string>, role: Role)
    ensures BindingDigest(b, path).None? <==> path.None? || BindingCodes(b, path, role) != {}
  {
    hide SafeShape;
  }

  // ----- the finding, by the declaration's and the evidence's own fields -----

  /** The declaration names a resource under this key. */
  predicate NamesResource(m: map<string, Yaml>, key: string) {
    key in m && m[key].YMap? && "resource" in m[key].m && m[key].m["resource"].YStr? && m[key].m["resource"].s != ""
  }

  function NamedResource(m: map<string, Yaml>, key: string): string
    requires NamesResource(m, key)
  {
    m[key].m["resource"].s
  }

  /** The declaration lists the fields a run should return. */
  predicate ListsReceipt(m: map<string, Yaml>) {
    && "executor" in m && m["executor"].YMap? && "receipt" in m["executor"].m && m["executor"].m["receipt"].YList?
    && var items := m["executor"].m["receipt"].items;
    && forall i :: 0 <= i < |items| ==> items[i].YStr? && items[i].s != ""
  }

  predicate ListsField(m: map<string, Yaml>, f: string) {
    ListsReceipt(m) && YStr(f) in m["executor"].m["receipt"].items
  }

  /** The resource leads to a readable file under the root. */
  ghost predicate Located(b: Bundle, m: map<string, Yaml>, key: string) {
    NamesResource(m, key) && !Refused(NamedResource(m, key)) && b.resolve(NamedResource(m, key)).File?
  }

  /** `sha256:` and sixty-four lower-case hexadecimal digits. */
  ghost predicate DigestText(s: string) {
    exists body: string :: s == "sha256:" + body && |body| == 64 && forall i :: 0 <= i < 64 ==> body[i] in "0123456789abcdef"
  }

  /** The evidence claims nothing for the resource, or the digest of the file it leads to. */
  ghost predicate ClaimHolds(b: Bundle, m: map<string, Yaml>, key: string, claim: Json) {
    claim == Null
    || (&& claim.Str? && DigestText(claim.s) && Located(b, m, key)
        && claim.s == "sha256:" + b.sha256(b.resolve(NamedResource(m, key)).data))
  }

  lemma HexExactly(c: char)
    ensures IsHex(c) <==> c in "0123456789abcdef"
  {
    var digits := "0123456789abcdef";
    if IsHex(c) {
      var i := if c <= '9' then c as int - '0' as int else 10 + (c as int - 'a' as int);
      assert digits[i] == c;
    }
  }

  lemma DigestTextExactly(v: Json)
    ensures IsSha256Ref(v) <==> v.Str? && DigestText(v.s)
  {
    hide IsHex;
    if IsSha256Ref(v) {
      var body := v.s[7..];
      assert v.s == "sha256:" + body;
      forall i | 0 <= i < 64 ensures body[i] in "0123456789abcdef" {
        assert body[i] == v.s[i + 7];
        HexExactly(body[i]);
      }
    }
    if v.Str? {
      if body: string :| v.s == "sha256:" + body && |body| == 64 && forall i :: 0 <= i < 64 ==> body[i] in "0123456789abcdef" {
        forall i | 7 <= i < 71 ensures IsHex(v.s[i]) {
          assert v.s[i] == body[i - 7];
          HexExactly(v.s[i]);
        }
      }
    }
  }

  lemma PathsExactly(m: map<string, Yaml>)
    ensures ExecutorPath(m) == if NamesResource(m, "executor") then Some(NamedResource(m, "executor")) else None
    ensures AttesterPath(m) == if NamesResource(m, "attester") then Some(NamedResource(m, "attester")) else None
  {}

  lemma ReceiptExactly(m: map<string, Yaml>)
    ensures ReceiptFields(m).Some? <==> ListsReceipt(m)
    ensures forall f :: ReceiptFields(m).Some? && f in ReceiptFields(m).value <==> ListsField(m, f)
  {
    if ListsReceipt(m) {
      var items, fs := m["executor"].m["receipt"].items, ReceiptFields(m).value;
      forall f ensures f in fs <==> YStr(f) in items {
        if f in fs {
          var i :| 0 <= i < |fs| && fs[i] == f;
          assert items[i] == YStr(f);
        }
        if YStr(f) in items {
          var i :| 0 <= i < |items| && items[i] == YStr(f);
          assert fs[i] == f;
        }
      }
    }
  }

  /** Binding a path, for every bundle and role: a refused one is unsafe, whatever it leads to; any other
      has a digest exactly when it leads to a readable file. */
  lemma BindingExactly(b: Bundle, path: string, role: Role)
    ensures var digest, codes := BindingDigest(b, Some(path)), BindingCodes(b, Some(path), role);
      if Refused(path) then digest == None && codes == {UnsafeResourceReference(role)}
      else
        && (digest.Some? <==> b.resolve(path).File?)
        && (digest.Some? ==> digest.value == "sha256:" + b.sha256(b.resolve(path).data))
        && (codes == {} <==> b.resolve(path).File?)
        && (codes == {UnsafeResourceReference(role)} <==> b.resolve(path).Escapes?)
        && (codes == {ResourceNotAFile(role)} <==> b.resolve(path).NotAFile?)
        && (codes == {ResourceMissing(role)} <==> b.resolve(path).Missing? || b.resolve(path).Unreadable?)
  {
    RefusedExactly(path);
    hide SafeShape, Refused;
    assert UnsafeResourceReference(role) in {UnsafeResourceReference(role)};
    assert ResourceNotAFile(role) in {ResourceNotAFile(role)} && ResourceMissing(role) in {ResourceMissing(role)};
  }

  /** When each code is given, for a declaration that parses. */
  ghost predicate Given(b: Bundle, m: map<string, Yaml>, run: Option<Json>, c: Code) {
    var usable := run.Some? && run.value.Obj?;
    match c
    case DeclarationMalformed => "parameters" in m && !m["parameters"].YNull? && !m["parameters"].YMap?
    case WrongType => !("type" in m && m["type"] == YStr("Attested Computation"))
    case MissingRuntime => !("runtime" in m && m["runtime"].YStr? && m["runtime"].s != "")
    case MissingExecutorResource => !NamesResource(m, "executor")
    case MissingExecutorReceipt => !ListsReceipt(m)
    case MissingAttesterResource => !NamesResource(m, "attester")
    case UnsafeResourceReference(role) =>
      var key := match role case Executor => "executor" case Attester => "attester";
      && NamesResource(m, key)
      && (Refused(NamedResource(m, key)) || b.resolve(NamedResource(m, key)).Escapes?)
    case ResourceMissing(role) =>
      var key := match role case Executor => "executor" case Attester => "attester";
      && NamesResource(m, key) && !Refused(NamedResource(m, key))
      && (b.resolve(NamedResource(m, key)).Missing? || b.resolve(NamedResource(m, key)).Unreadable?)
    case ResourceNotAFile(role) =>
      var key := match role case Executor => "executor" case Attester => "attester";
      NamesResource(m, key) && !Refused(NamedResource(m, key)) && b.resolve(NamedResource(m, key)).NotAFile?
    case RunEvidenceMalformed => !usable
    case ReceiptFieldAbsent(f) => usable && ListsField(m, f) && !HasKey(run.value.members, f)
    case ResourceBindingMismatch(Executor) =>
      usable && !ClaimHolds(b, m, "executor", Lookup(run.value.members, "executor_resource_digest"))
    case ResourceBindingMismatch(Attester) =>
      usable && !ClaimHolds(b, m, "attester", Lookup(run.value.members, "attester_resource_digest"))
  }

  lemma DeclarationGiven(m: map<string, Yaml>)
    ensures DeclarationMalformed in DeclarationCodes(m) <==>
      "parameters" in m && !m["parameters"].YNull? && !m["parameters"].YMap?
    ensures WrongType in DeclarationCodes(m) <==> !("type" in m && m["type"] == YStr("Attested Computation"))
    ensures MissingRuntime in DeclarationCodes(m) <==>
      !("runtime" in m && m["runtime"].YStr? && m["runtime"].s != "")
    ensures MissingExecutorResource in DeclarationCodes(m) <==> !NamesResource(m, "executor")
    ensures MissingExecutorReceipt in DeclarationCodes(m) <==> !ListsReceipt(m)
    ensures MissingAttesterResource in DeclarationCodes(m) <==> !NamesResource(m, "attester")
    ensures DeclarationCodes(m) <= DECLARATION_CODES
  {
    PathsExactly(m);
    ReceiptExactly(m);
    hide ExecutorPath, AttesterPath, ReceiptFields, NamesResource, ListsReceipt;
  }

  lemma ClaimExactly(b: Bundle, m: map<string, Yaml>, key: string, claim: Json, path: Option<string>)
    requires path == if NamesResource(m, key) then Some(NamedResource(m, key)) else None
    ensures ClaimConflicts(claim, BindingDigest(b, path)) <==> !ClaimHolds(b, m, key, claim)
  {
    DigestTextExactly(claim);
    if path.Some? { BindingExactly(b, path.value, Executor); }
    hide IsSha256Ref, DigestText, Refused, SafeShape, Locate;
  }

  ghost predicate GivenOfPath(b: Bundle, path: string, role: Role, c: Code) {
    match c
    case UnsafeResourceReference(r) => r == role && (Refused(path) || b.resolve(path).Escapes?)
    case ResourceMissing(r) =>
      r == role && !Refused(path) && (b.resolve(path).Missing? || b.resolve(path).Unreadable?)
    case ResourceNotAFile(r) => r == role && !Refused(path) && b.resolve(path).NotAFile?
    case _ => false
  }

  lemma BindingGiven(b: Bundle, path: Option<string>, role: Role, c: Code)
    ensures c in BindingCodes(b, path, role) <==> path.Some? && GivenOfPath(b, path.value, role, c)
  {
    if path.Some? { RefusedExactly(path.value); }
    hide SafeShape, Refused;
  }

  lemma EvidenceGiven(b: Bundle, m: map<string, Yaml>, run: Option<Json>, c: Code)
    ensures
      c in EvidenceCodes(run, ReceiptFields(m), BindingDigest(b, ExecutorPath(m)), BindingDigest(b, AttesterPath(m)))
      <==> (c.RunEvidenceMalformed? || c.ReceiptFieldAbsent? || c.ResourceBindingMismatch?) && Given(b, m, run, c)
  {
    hide ExecutorPath, AttesterPath, ReceiptFields, NamesResource, ListsReceipt, ListsField, ClaimHolds, ClaimConflicts,
         BindingDigest, AbsentFields, ClaimCodes, Lookup, HasKey, Refused;
    PathsExactly(m);
    ReceiptExactly(m);
    var executor, attester := BindingDigest(b, ExecutorPath(m)), BindingDigest(b, AttesterPath(m));
    if run.Some? && run.value.Obj? {
      var ms := run.value.members;
      ClaimExactly(b, m, "executor", Lookup(ms, "executor_resource_digest"), ExecutorPath(m));
      ClaimExactly(b, m, "attester", Lookup(ms, "attester_resource_digest"), AttesterPath(m));
      ClaimGiven(ms, executor, attester, c);
      if ReceiptFields(m).Some? { AbsentGiven(ReceiptFields(m).value, ms, c); }
    }
  }

  lemma ClaimGiven(ms: seq<Member>, executor: Option<string>, attester: Option<string>, c: Code)
    ensures c in ClaimCodes(ms, executor, attester) <==>
      || (c == ResourceBindingMismatch(Executor) && ClaimConflicts(Lookup(ms, "executor_resource_digest"), executor))
      || (c == ResourceBindingMismatch(Attester) && ClaimConflicts(Lookup(ms, "attester_resource_digest"), attester))
  {
    hide ClaimConflicts, Lookup;
  }

  lemma AbsentGiven(fields: seq<string>, ms: seq<Member>, c: Code)
    ensures c in AbsentFields(fields, ms) <==> c.ReceiptFieldAbsent? && c.field in fields && !HasKey(ms, c.field)
  {
    hide HasKey;
    if c.ReceiptFieldAbsent? && c.field in fields && !HasKey(ms, c.field) {
      var i :| 0 <= i < |fields| && fields[i] == c.field;
      assert ReceiptFieldAbsent(fields[i]) in AbsentFields(fields, ms);
    }
  }

  /** Every code of a finding, and no other: a text that does not parse gives the one code, and a
      declaration that parses those whose condition holds. */
  lemma CodesExactly(b: Bundle, text: Option<string>, run: Option<Json>, c: Code)
    ensures var f := VerifyText(b, text, run);
      c in f.failureCodes <==>
        if text.Some? && ParseFrontmatter(text.value).Ok? then Given(b, ParseFrontmatter(text.value).value, run, c)
        else c == DeclarationMalformed
  {
    hide ParseFrontmatter, Judge, Given;
    if text.Some? && ParseFrontmatter(text.value).Ok? { JudgedExactly(b, ParseFrontmatter(text.value).value, run, c); }
  }

  lemma JudgedExactly(b: Bundle, m: map<string, Yaml>, run: Option<Json>, c: Code)
    ensures c in Judge(b, m, run).failureCodes <==> Given(b, m, run, c)
  {
    JudgeCodes(b, m, run);
    DeclarationGiven(m);
    BindingGiven(b, ExecutorPath(m), Executor, c);
    BindingGiven(b, AttesterPath(m), Attester, c);
    EvidenceGiven(b, m, run, c);
    PathsExactly(m);
    hide Judge, DeclarationCodes, BindingCodes, BindingDigest, EvidenceCodes, ExecutorPath, AttesterPath, ReceiptFields,
         NamesResource, ListsReceipt, ListsField, ClaimHolds, Refused, HasKey, Lookup;
    assert c in DeclarationCodes(m) ==> c in DECLARATION_CODES;
  }

  /** The three conclusions and the digests, in the same terms. */
  lemma ConclusionsExactly(b: Bundle, m: map<string, Yaml>, run: Option<Json>)
    ensures var f := Judge(b, m, run);
      && (f.declarationValid <==> forall c :: c in DECLARATION_CODES ==> !Given(b, m, run, c))
      && (f.resourceBindingsValid <==>
            && Located(b, m, "executor") && Located(b, m, "attester")
            && (run.Some? && run.value.Obj? ==>
                  && ClaimHolds(b, m, "executor", Lookup(run.value.members, "executor_resource_digest"))
                  && ClaimHolds(b, m, "attester", Lookup(run.value.members, "attester_resource_digest"))))
      && (f.receiptShapeSatisfied <==>
            run.Some? && run.value.Obj? && ListsReceipt(m)
            && forall field :: ListsField(m, field) ==> HasKey(run.value.members, field))
      && (f.executorDigest == if Located(b, m, "executor")
            then Some("sha256:" + b.sha256(b.resolve(NamedResource(m, "executor")).data)) else None)
      && (f.attesterDigest == if Located(b, m, "attester")
            then Some("sha256:" + b.sha256(b.resolve(NamedResource(m, "attester")).data)) else None)
  {
    DeclaredValid(b, m, run);
    BoundValid(b, m, run);
    ShapeSatisfied(b, m, run);
    hide *;
  }

  lemma DeclaredValid(b: Bundle, m: map<string, Yaml>, run: Option<Json>)
    ensures Judge(b, m, run).declarationValid <==> forall c :: c in DECLARATION_CODES ==> !Given(b, m, run, c)
  {
    DeclarationGiven(m);
    hide DeclarationCodes, BindingCodes, BindingDigest, ExecutorPath, AttesterPath, ReceiptFields, NamesResource,
         ListsReceipt, ListsField, ClaimHolds, Refused, ClaimCodes, AbsentFields;
    var d := DeclarationCodes(m);
    forall c | c in DECLARATION_CODES ensures c in d <==> Given(b, m, run, c) {}
    if d != {} {
      var c :| c in d;
      assert c in DECLARATION_CODES;
    }
  }

  lemma BoundValid(b: Bundle, m: map<string, Yaml>, run: Option<Json>)
    ensures var f := Judge(b, m, run);
      && (f.resourceBindingsValid <==>
            && Located(b, m, "executor") && Located(b, m, "attester")
            && (run.Some? && run.value.Obj? ==>
                  && ClaimHolds(b, m, "executor", Lookup(run.value.members, "executor_resource_digest"))
                  && ClaimHolds(b, m, "attester", Lookup(run.value.members, "attester_resource_digest"))))
      && (f.executorDigest == if Located(b, m, "executor")
            then Some("sha256:" + b.sha256(b.resolve(NamedResource(m, "executor")).data)) else None)
      && (f.attesterDigest == if Located(b, m, "attester")
            then Some("sha256:" + b.sha256(b.resolve(NamedResource(m, "attester")).data)) else None)
  {
    PathsExactly(m);
    var executor, attester := BindingDigest(b, ExecutorPath(m)), BindingDigest(b, AttesterPath(m));
    DigestLocated(b, m, "executor", ExecutorPath(m));
    DigestLocated(b, m, "attester", AttesterPath(m));
    if run.Some? && run.value.Obj? {
      var ms := run.value.members;
      ClaimExactly(b, m, "executor", Lookup(ms, "executor_resource_digest"), ExecutorPath(m));
      ClaimExactly(b, m, "attester", Lookup(ms, "attester_resource_digest"), AttesterPath(m));
      ClaimsOk(ms, executor, attester);
    }
    hide DeclarationCodes, BindingCodes, BindingDigest, ExecutorPath, AttesterPath, ReceiptFields, NamesResource,
         Located, ClaimHolds, ClaimCodes, ClaimConflicts, AbsentFields, Lookup;
  }

  lemma DigestLocated(b: Bundle, m: map<string, Yaml>, key: string, path: Option<string>)
    requires path == if NamesResource(m, key) then Some(NamedResource(m, key)) else None
    ensures BindingDigest(b, path) == if Located(b, m, key)
      then Some("sha256:" + b.sha256(b.resolve(NamedResource(m, key)).data)) else None
  {
    if path.Some? { BindingExactly(b, path.value, Executor); }
    hide Refused, SafeShape, Locate;
  }

  lemma ShapeSatisfied(b: Bundle, m: map<string, Yaml>, run: Option<Json>)
    ensures Judge(b, m, run).receiptShapeSatisfied <==>
      run.Some? && run.value.Obj? && ListsReceipt(m)
      && forall field :: ListsField(m, field) ==> HasKey(run.value.members, field)
  {
    ReceiptExactly(m);
    hide DeclarationCodes, BindingCodes, BindingDigest, ExecutorPath, AttesterPath, ReceiptFields, ListsReceipt,
         ListsField, ClaimCodes, AbsentFields, HasKey;
    if run.Some? && run.value.Obj? && ReceiptFields(m).Some? {
      var fs, ms := ReceiptFields(m).value, run.value.members;
      FieldsOk(fs, ms);
      if forall i :: 0 <= i < |fs| ==> HasKey(ms, fs[i]) {
        forall field | ListsField(m, field) ensures HasKey(ms, field) {
          var i :| 0 <= i < |fs| && fs[i] == field;
        }
      }
      if forall field :: ListsField(m, field) ==> HasKey(ms, field) {
        forall i | 0 <= i < |fs| ensures HasKey(ms, fs[i]) { assert ListsField(m, fs[i]); }
      }
    }
  }

  /** A run passes exactly when a well-formed declaration is bound to its resources and evidence: it has
      the declared type, a runtime and no parameters but a mapping; both resources are paths that are
      not refused and lead to readable files; every declared field is in the evidence; and a digest
      the evidence claims is that of the file. */
  lemma PassedMeans(b: Bundle, text: Option<string>, run: Option<Json>)
    ensures Passed(VerifyText(b, text, run)) <==>
      && text.Some? && ParseFrontmatter(text.value).Ok?
      && run.Some? && run.value.Obj?
      && var m, ms := ParseFrontmatter(text.value).value, run.value.members;
      && "type" in m && m["type"] == YStr("Attested Computation")
      && "runtime" in m && m["runtime"].YStr? && m["runtime"].s != ""
      && ("parameters" in m ==> m["parameters"].YNull? || m["parameters"].YMap?)
      && Located(b, m, "executor") && Located(b, m, "attester")
      && ListsReceipt(m) && (forall field :: ListsField(m, field) ==> HasKey(ms, field))
      && ClaimHolds(b, m, "executor", Lookup(ms, "executor_resource_digest"))
      && ClaimHolds(b, m, "attester", Lookup(ms, "attester_resource_digest"))
  {
    hide ParseFrontmatter, Judge, ListsReceipt, ListsField, Located, ClaimHolds, HasKey, Lookup;
    if text.Some? && ParseFrontmatter(text.value).Ok? {
      var m := ParseFrontmatter(text.value).value;
      ConclusionsExactly(b, m, run);
      DeclarationHolds(b, m, run);
    }
  }

  lemma DeclarationHolds(b: Bundle, m: map<string, Yaml>, run: Option<Json>)
    ensures (forall c :: c in DECLARATION_CODES ==> !Given(b, m, run, c)) <==>
      && "type" in m && m["type"] == YStr("Attested Computation")
      && "runtime" in m && m["runtime"].YStr? && m["runtime"].s != ""
      && ("parameters" in m ==> m["parameters"].YNull? || m["parameters"].YMap?)
      && NamesResource(m, "executor") && NamesResource(m, "attester") && ListsReceipt(m)
    ensures Located(b, m, "executor") ==> NamesResource(m, "executor")
    ensures Located(b, m, "attester") ==> NamesResource(m, "attester")
  {
    hide NamesResource, ListsReceipt, Refused;
    assert WrongType in DECLARATION_CODES && MissingRuntime in DECLARATION_CODES;
    assert MissingExecutorResource in DECLARATION_CODES && MissingExecutorReceipt in DECLARATION_CODES;
    assert MissingAttesterResource in DECLARATION_CODES && DeclarationMalformed in DECLARATION_CODES;
  }

  lemma ClaimsOk(ms: seq<Member>, executor: Option<string>, attester: Option<string>)
    ensures ClaimCodes(ms, executor, attester) == {} <==>
      && !ClaimConflicts(Lookup(ms, "executor_resource_digest"), executor)
      && !ClaimConflicts(Lookup(ms, "attester_resource_digest"), attester)
  {
    hide ClaimConflicts, Lookup;
    var c := ClaimCodes(ms, executor, attester);
    assert ClaimConflicts(Lookup(ms, "executor_resource_digest"), executor) ==> ResourceBindingMismatch(Executor) in c;
    assert ClaimConflicts(Lookup(ms, "attester_resource_digest"), attester) ==> ResourceBindingMismatch(Attester) in c;
  }

  lemma FieldsOk(fields: seq<string>, ms: seq<Member>)
    ensures AbsentFields(fields, ms) == {} <==> forall i :: 0 <= i < |fields| ==> HasKey(ms, fields[i])
  {
    forall i | 0 <= i < |fields| && !HasKey(ms, fields[i])
      ensures ReceiptFieldAbsent(fields[i]) in AbsentFields(fields, ms)
    {}
  }

  // ----- unrecognised keys -----

  predicate Recognised(k: string) {
    k in {"type", "runtime", "executor", "attester", "parameters"}
  }

  /** The finding depends on the recognised top-level keys only. */
  lemma JudgeIgnores(b: Bundle, m: map<string, Yaml>, m': map<string, Yaml>, k: string, run: Option<Json>)
    requires !Recognised(k) && m - {k} == m' - {k}
    ensures Judge(b, m, run) == Judge(b, m', run)
  {
    hide ExecutorPath, AttesterPath, ReceiptFields, DeclarationCodes, Field;
    ReadersIgnore(m, m', k);
  }

  lemma ReadersIgnore(m: map<string, Yaml>, m': map<string, Yaml>, k: string)
    requires !Recognised(k) && m - {k} == m' - {k}
    ensures ExecutorPath(m) == ExecutorPath(m') && AttesterPath(m) == AttesterPath(m')
    ensures ReceiptFields(m) == ReceiptFields(m') && DeclarationCodes(m) == DeclarationCodes(m')
  {
    hide Field;
    SameField(m, m', k, "type");
    SameField(m, m', k, "runtime");
    SameField(m, m', k, "executor");
    SameField(m, m', k, "attester");
    SameField(m, m', k, "parameters");
  }

  lemma SameField(m: map<string, Yaml>, m': map<string, Yaml>, k: string, x: string)
    requires m - {k} == m' - {k} && x != k
    ensures Field(m, x) == Field(m', x)
  {
    assert x in m <==> x in m - {k};
    assert x in m' <==> x in m' - {k};
    if x in m { assert m[x] == (m - {k})[x] == (m' - {k})[x] == m'[x]; }
  }

  /** A `key: value` line with an unrecognised key, added to a parseable declaration at any
      top-level boundary of its frontmatter, changes nothing in the finding. */
  lemma UnknownLineInert(b: Bundle, text: string, p: nat, t: Token, run: Option<Json>)
    requires Keeps(t.content) && EntryError(t.content).None? && RestOf(t.content) != ""
    requires !Recognised(KeyOf(t.content))
    requires ParseFrontmatter(text).Ok? && BoundaryAt(text, p, t)
    ensures p <= |SplitOn(text, '\n')|
    ensures VerifyText(b, Some(InsertLine(text, p, LineOf(t))), run) == VerifyText(b, Some(text), run)
  {
    hide Keeps, EntryError, RestOf, Recognised, KeyOf, ParseFrontmatter, BoundaryAt, InsertLine, Judge;
    InsertedLine(text, p, t);
    JudgeIgnores(b, ParseFrontmatter(text).value, ParseFrontmatter(InsertLine(text, p, LineOf(t))).value,
                 KeyOf(t.content), run);
  }
}
