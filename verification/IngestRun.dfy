/** `ingest_run_sequence.py`: the linkage of a run document, a receipt-set manifest and the receipts it
    lists, and the coverage of the run's file occurrences. Files are given by what reading them
    yields; finding details are left out. */
module IngestRun {
  import opened JsonValue

  datatype Code =
    | RunSchemaMismatch | BoundaryViolation | ManifestSchemaMismatch | RunIdMismatch | PinMismatch
    | AuthorityMismatch | FileMissing | ParseError | ProtocolMismatch | ReceiptIdMismatch
    | SubjectRefMismatch | SubjectBindingMismatch | RelPathMismatch | CorpusRefMismatch
    | RawContentPresent | MissingExclusion | SkipCategoryMalformed | NotAccounted
    | DuplicateViolation | NullParserViolation

  predicate Equal(a: Json, b: Json) { Abs(a) == Abs(b) }

  function Unless(ok: bool, k: Code): seq<Code> { if ok then [] else [k] }

  // ----- coverage: the four categories -----

  datatype Category = Emitted | SkippedDuplicate | SkippedNoParser | ProfileNotApplicable

  /** The paths the manifest puts in each category. */
  datatype Sets = Sets(emitted: set<string>, duplicate: set<string>, noParser: set<string>, notApplicable: set<string>)
  {
    function Of(c: Category): set<string> {
      match c
      case Emitted => emitted
      case SkippedDuplicate => duplicate
      case SkippedNoParser => noParser
      case ProfileNotApplicable => notApplicable
    }
  }

  predicate ListOfTexts(v: Json) { v.Arr? && forall i :: 0 <= i < |v.items| ==> v.items[i].Str? }

  /** The texts a malformed value still contributes: those of a list, the keys of an object, the
      characters of a text. Iterating over a number is a type error, unless it is zero. */
  function Texts(v: Json): Option<set<string>> {
    match v
    case Arr(items) => Some(set x | x in items && x.Str? :: x.s)
    case Obj(ms) => Some(set m | m in ms :: m.key)
    case Str(s) => Some(set c | c in s :: [c])
    case Int(n) => if n == 0 then Some({}) else None
    case Bool(b) => if b then None else Some({})
    case Null => Some({})
  }

  function SkipValue(manifest: Json, c: Category): Json {
    match c
    case SkippedDuplicate => Get(manifest, "skipped_duplicate")
    case SkippedNoParser => Get(manifest, "skipped_no_parser")
    case ProfileNotApplicable => Get(manifest, "profile_not_applicable")
    case Emitted => Arr([])
  }

  function SkipFindings(manifest: Json): seq<Code> {
    Unless(ListOfTexts(SkipValue(manifest, SkippedDuplicate)), SkipCategoryMalformed)
    + Unless(ListOfTexts(SkipValue(manifest, SkippedNoParser)), SkipCategoryMalformed)
    + Unless(ListOfTexts(SkipValue(manifest, ProfileNotApplicable)), SkipCategoryMalformed)
  }

  function Entries(manifest: Json): seq<Json> {
    var v := Get(manifest, "emitted_receipts");
    if v.Arr? then Objects(v.items) else []
  }

  function Objects(xs: seq<Json>): (r: seq<Json>)
    ensures forall x :: x in r <==> x in xs && x.Obj?
  {
    if xs == [] then [] else (if xs[0].Obj? then [xs[0]] else []) + Objects(xs[1..])
  }

  function RelPath(j: Json): Json { Get(j, "rel_path") }

  function EmittedPaths(entries: seq<Json>): set<string> {
    set e | e in entries && RelPath(e).Str? :: RelPath(e).s
  }

  /** None when a malformed category is a number. */
  function SetsOf(manifest: Json): Option<Sets> {
    var duplicate :- Texts(SkipValue(manifest, SkippedDuplicate));
    var noParser :- Texts(SkipValue(manifest, SkippedNoParser));
    var notApplicable :- Texts(SkipValue(manifest, ProfileNotApplicable));
    Some(Sets(EmittedPaths(Entries(manifest)), duplicate, noParser, notApplicable))
  }

  function Usable(occ: Json): Option<string> {
    var rel := RelPath(occ);
    if rel.Str? && rel.s != [] then Some(rel.s) else None
  }

  function CategoriesOf(rel: string, sets: Sets): seq<Category> {
    (if rel in sets.emitted then [Emitted] else [])
    + (if rel in sets.duplicate then [SkippedDuplicate] else [])
    + (if rel in sets.noParser then [SkippedNoParser] else [])
    + (if rel in sets.notApplicable then [ProfileNotApplicable] else [])
  }

  predicate IsDuplicate(occ: Json) { Get(occ, "is_duplicate_content") == Bool(true) }

  predicate NoParser(occ: Json) { Get(occ, "parser_id") == Null }

  function OccurrenceFindings(occ: Json, sets: Sets): seq<Code> {
    if !occ.Obj? then []
    else if Usable(occ).None? then [NotAccounted]
    else
      var cats := CategoriesOf(Usable(occ).value, sets);
      Unless(cats != [], NotAccounted) + Unless(|cats| <= 1, SkipCategoryMalformed)
      + Unless(!(IsDuplicate(occ) && Emitted in cats), DuplicateViolation)
      + Unless(!(NoParser(occ) && Emitted in cats), NullParserViolation)
  }

  function CoverageFindings(occs: seq<Json>, sets: Sets): seq<Code> {
    if occs == [] then []
    else
      var n := |occs| - 1;
      CoverageFindings(occs[..n], sets) + OccurrenceFindings(occs[n], sets)
  }

  // ----- what an accounted run means -----

  predicate InCategory(occ: Json, c: Category, sets: Sets) {
    occ.Obj? && Usable(occ).Some? && Usable(occ).value in sets.Of(c)
  }

  /** Exactly one category holds the occurrence. */
  predicate InOne(occ: Json, sets: Sets) {
    exists c :: InCategory(occ, c, sets) && forall d :: InCategory(occ, d, sets) ==> d == c
  }

  function Count(occs: seq<Json>, c: Category, sets: Sets): nat {
    if occs == [] then 0
    else (if InCategory(occs[0], c, sets) then 1 else 0) + Count(occs[1..], c, sets)
  }

  lemma OneCategory(occ: Json, sets: Sets)
    requires occ.Obj?
    ensures NotAccounted !in OccurrenceFindings(occ, sets) && SkipCategoryMalformed !in OccurrenceFindings(occ, sets)
       <==> InOne(occ, sets)
  {
    hide IsDuplicate, NoParser, RelPath;
    if Usable(occ).Some? {
      var cats := CategoriesOf(Usable(occ).value, sets);
      CategoriesListed(occ, sets);
      hide CategoriesOf, InCategory, Usable;
      if |cats| == 1 {
        assert cats[0] in cats && forall d :: d in cats ==> d == cats[0];
      } else if |cats| > 1 {
        CategoriesDiffer(occ, sets);
        assert cats[0] in cats && cats[1] in cats;
      }
    }
  }

  lemma CategoriesListed(occ: Json, sets: Sets)
    requires occ.Obj? && Usable(occ).Some?
    ensures forall c :: c in CategoriesOf(Usable(occ).value, sets) <==> InCategory(occ, c, sets)
  {
    hide Usable;
  }

  lemma CategoriesDiffer(occ: Json, sets: Sets)
    requires Usable(occ).Some? && |CategoriesOf(Usable(occ).value, sets)| > 1
    ensures var cats := CategoriesOf(Usable(occ).value, sets); cats[0] != cats[1]
  {
    hide Usable;
  }

  lemma OneCounted(occ: Json, sets: Sets)
    ensures occ.Obj? && InOne(occ, sets) ==>
      (if InCategory(occ, Emitted, sets) then 1 else 0) + (if InCategory(occ, SkippedDuplicate, sets) then 1 else 0)
      + (if InCategory(occ, SkippedNoParser, sets) then 1 else 0)
      + (if InCategory(occ, ProfileNotApplicable, sets) then 1 else 0) == 1
  {
    hide InCategory;
  }

  lemma {:induction false} CoverageSilent(occs: seq<Json>, sets: Sets, k: Code)
    ensures k !in CoverageFindings(occs, sets) <==>
      forall i :: 0 <= i < |occs| ==> k !in OccurrenceFindings(occs[i], sets)
  {
    hide OccurrenceFindings;
    if occs != [] {
      var n := |occs| - 1;
      CoverageSilent(occs[..n], sets, k);
      assert forall i :: 0 <= i < n ==> occs[..n][i] == occs[i];
    }
  }

  /** The loop finds nothing to complain about in the accounting exactly when every occurrence that
      is an object lies in exactly one category. */
  lemma AccountedExactly(occs: seq<Json>, sets: Sets)
    ensures NotAccounted !in CoverageFindings(occs, sets) && SkipCategoryMalformed !in CoverageFindings(occs, sets)
       <==> forall i :: 0 <= i < |occs| && occs[i].Obj? ==> InOne(occs[i], sets)
  {
    CoverageSilent(occs, sets, NotAccounted);
    CoverageSilent(occs, sets, SkipCategoryMalformed);
    forall i | 0 <= i < |occs|
      ensures NotAccounted !in OccurrenceFindings(occs[i], sets)
              && SkipCategoryMalformed !in OccurrenceFindings(occs[i], sets)
         <==> (occs[i].Obj? ==> InOne(occs[i], sets))
    {
      if occs[i].Obj? { OneCategory(occs[i], sets); }
    }
    hide OccurrenceFindings, InOne, CoverageFindings;
  }

  /** Then the categories partition the occurrences that are objects: their counts add up to the
      number of those, so to the number of all occurrences exactly when all are objects. */
  lemma {:induction false} CountsAddUp(occs: seq<Json>, sets: Sets)
    requires forall i :: 0 <= i < |occs| && occs[i].Obj? ==> InOne(occs[i], sets)
    ensures Count(occs, Emitted, sets) + Count(occs, SkippedDuplicate, sets) + Count(occs, SkippedNoParser, sets)
            + Count(occs, ProfileNotApplicable, sets) == |Objects(occs)|
    ensures |Objects(occs)| <= |occs|
    ensures |Objects(occs)| == |occs| <==> forall i :: 0 <= i < |occs| ==> occs[i].Obj?
  {
    hide InOne, InCategory;
    if occs != [] {
      forall i | 0 <= i < |occs[1..]| && occs[1..][i].Obj? ensures InOne(occs[1..][i], sets) {
        assert occs[1..][i] == occs[i + 1];
      }
      CountsAddUp(occs[1..], sets);
      OneCounted(occs[0], sets);
      NotObjectNotCounted(occs[0], sets);
      if forall i :: 0 <= i < |occs| ==> occs[i].Obj? {
        forall i | 0 <= i < |occs[1..]| ensures occs[1..][i].Obj? { assert occs[1..][i] == occs[i + 1]; }
      } else {
        var i :| 0 <= i < |occs| && !occs[i].Obj?;
        if i > 0 { assert !occs[1..][i - 1].Obj?; }
      }
    }
  }

  lemma NotObjectNotCounted(occ: Json, sets: Sets)
    ensures !occ.Obj? ==> forall c :: !InCategory(occ, c, sets)
  {}

  /** With both postures kept as well, a duplicate or parser-less occurrence lies in exactly one of
      the skip categories and was not emitted. */
  lemma PostureSkips(occs: seq<Json>, sets: Sets, i: nat)
    requires i < |occs| && CoverageFindings(occs, sets) == []
    requires occs[i].Obj? && (IsDuplicate(occs[i]) || NoParser(occs[i]))
    ensures InOne(occs[i], sets) && !InCategory(occs[i], Emitted, sets)
  {
    AccountedExactly(occs, sets);
    CoverageSilent(occs, sets, DuplicateViolation);
    CoverageSilent(occs, sets, NullParserViolation);
    hide CoverageFindings, InOne, IsDuplicate, NoParser, RelPath;
    assert DuplicateViolation !in OccurrenceFindings(occs[i], sets);
    assert NullParserViolation !in OccurrenceFindings(occs[i], sets);
    if Usable(occs[i]).Some? {
      CategoriesListed(occs[i], sets);
      hide CategoriesOf, Usable;
    }
  }

  /** An occurrence that is not an object is passed over in silence: a run of nothing else is fully
      accounted for without any category holding any of it. */
  lemma NonObjectsUnseen(n: nat, c: Category, sets: Sets)
    ensures CoverageFindings(seq(n, i => Null), sets) == []
    ensures Count(seq(n, i => Null), c, sets) == 0
  {
    var occs := seq(n, i => Null);
    if n > 0 {
      NonObjectsUnseen(n - 1, c, sets);
      assert occs[..n - 1] == seq(n - 1, i => Null) && occs[1..] == seq(n - 1, i => Null);
    }
  }

  // ----- the other checks -----

  const RUN_DOC_SCHEMA := "dagr.ingest_run.v0.1"
  const MANIFEST_SCHEMA := "dagr-ingest.srs-receipt-set-manifest.v0.1"
  const PROTOCOL_BINDING := "dagr-ingest/v0.1"
  const PROFILE_SHA256 := "ec3871e4a1ca0541a0dc81487b0675aa096c15fd5ce5b8da4e93af2a6c49d5e2"

  function RunSchemaFindings(doc: Json): seq<Code> {
    Unless(Get(doc, "schema") == Str(RUN_DOC_SCHEMA), RunSchemaMismatch)
  }

  function BoundaryFindings(doc: Json): seq<Code> {
    var b := Get(doc, "boundary");
    if !b.Obj? then [BoundaryViolation]
    else
      Unless(Get(b, "no_arcs_srs") == Bool(true), BoundaryViolation)
      + Unless(Get(b, "no_receipts_issued") == Bool(true), BoundaryViolation)
      + Unless(Get(b, "no_network") == Bool(true), BoundaryViolation)
  }

  function ManifestFindings(manifest: Json): seq<Code> {
    Unless(Get(manifest, "schema") == Str(MANIFEST_SCHEMA), ManifestSchemaMismatch)
    + Unless(Get(manifest, "emitted_receipts").Arr?, ManifestSchemaMismatch)
  }

  function RunIdFindings(doc: Json, manifest: Json): seq<Code> {
    Unless(Equal(Get(doc, "run_id"), Get(manifest, "run_id")), RunIdMismatch)
  }

  function DeclaredPin(manifest: Json): Json {
    if manifest.Obj? && HasKey(manifest.members, "profile_manifest_sha256")
    then Get(manifest, "profile_manifest_sha256") else Str("")
  }

  /** `digest` is the SHA-256 of the profile manifest's bytes; None when they cannot be read. */
  function PinFindings(digest: Option<string>, manifest: Json): seq<Code> {
    Unless(digest.Some? && DeclaredPin(manifest) == Str(digest.value), PinMismatch)
  }

  function AuthorityFindings(manifest: Json): seq<Code> {
    Unless(DeclaredPin(manifest) == Str(PROFILE_SHA256), AuthorityMismatch)
  }

  /** What reading `<receipt_id>.json` yields. */
  datatype ReceiptFile = Absent | Unreadable | NotJson | Parsed(value: Json)

  function CorpusRef(doc: Json): Json {
    var id := Get(doc, "run_id");
    if id.Str? then Str("sha256:" + id.s) else Null
  }

  function RawFindings(r: Json): seq<Code> {
    Unless(!HasMember(r, "raw_publication_bytes"), RawContentPresent)
    + Unless(!HasMember(r, "raw_frontmatter_yaml"), RawContentPresent)
    + Unless(!HasMember(r, "raw_body_text"), RawContentPresent)
  }

  predicate HasMember(r: Json, k: string) { r.Obj? && HasKey(r.members, k) }

  function ExclusionFindings(r: Json): seq<Code> {
    var excluded := Get(r, "artifact_classes_excluded");
    if !excluded.Arr? then [MissingExclusion]
    else
      Unless(Str("raw_body_text") in excluded.items, MissingExclusion)
      + Unless(Str("raw_frontmatter_yaml") in excluded.items, MissingExclusion)
      + Unless(Str("raw_publication_bytes") in excluded.items, MissingExclusion)
  }

  function BindingFindings(protocol: bool, id: bool, subject: bool, binding: bool, path: bool, corpus: bool): seq<Code> {
    Unless(protocol, ProtocolMismatch) + Unless(id, ReceiptIdMismatch) + Unless(subject, SubjectRefMismatch)
    + Unless(binding, SubjectBindingMismatch) + Unless(path, RelPathMismatch) + Unless(corpus, CorpusRefMismatch)
  }

  function ReceiptFindings(entry: Json, r: Json, corpusRef: Json): seq<Code> {
    BindingFindings(
      Get(r, "protocol_binding") == Str(PROTOCOL_BINDING),
      Equal(Get(r, "receipt_id"), Get(entry, "receipt_id")),
      Equal(Get(r, "subject_ref"), Get(entry, "subject_ref")),
      Equal(Get(r, "subject_ref"), Get(r, "publication_artifact_id")),
      Equal(Get(r, "relative_path"), RelPath(entry)),
      Equal(Get(r, "corpus_manifest_ref"), corpusRef))
    + RawFindings(r) + ExclusionFindings(r)
  }

  function EntryFindings(entry: Json, files: string -> ReceiptFile, corpusRef: Json): seq<Code> {
    var id := Get(entry, "receipt_id");
    if !id.Str? || id.s == [] then [FileMissing]
    else
      match files(id.s)
      case Absent => [FileMissing]
      case Unreadable => [ParseError]
      case NotJson => [ParseError]
      case Parsed(r) => if r.Obj? then ReceiptFindings(entry, r, corpusRef) else [ParseError]
  }

  function EntriesFindings(entries: seq<Json>, files: string -> ReceiptFile, corpusRef: Json): seq<Code> {
    if entries == [] then []
    else
      var n := |entries| - 1;
      EntriesFindings(entries[..n], files, corpusRef) + EntryFindings(entries[n], files, corpusRef)
  }

  datatype Conclusion = True | False | NotEvaluated

  function Concluded(ok: bool): Conclusion { if ok then True else False }

  /** The conclusion a code stands for, drawn from what a loop reported. */
  function Drawn(k: Code, found: seq<Code>): Conclusion { if k in found then False else True }

  predicate ReceiptCode(k: Code) {
    k.FileMissing? || k.ParseError? || k.ProtocolMismatch? || k.ReceiptIdMismatch? || k.SubjectRefMismatch?
    || k.SubjectBindingMismatch? || k.RelPathMismatch? || k.CorpusRefMismatch? || k.RawContentPresent?
    || k.MissingExclusion?
  }

  lemma {:induction false} EntriesCodes(entries: seq<Json>, files: string -> ReceiptFile, corpusRef: Json)
    ensures forall k :: k in EntriesFindings(entries, files, corpusRef) ==> ReceiptCode(k)
  {
    if entries != [] {
      var n := |entries| - 1;
      EntriesCodes(entries[..n], files, corpusRef);
      forall k | k in EntryFindings(entries[n], files, corpusRef) ensures ReceiptCode(k) {
        EntryCode(entries[n], files, corpusRef, k);
      }
    }
  }

  lemma EntryCode(entry: Json, files: string -> ReceiptFile, corpusRef: Json, k: Code)
    requires k in EntryFindings(entry, files, corpusRef)
    ensures ReceiptCode(k)
  {
    var id := Get(entry, "receipt_id");
    if id.Str? && id.s != [] && files(id.s).Parsed? && files(id.s).value.Obj? {
      ReceiptCodes(entry, files(id.s).value, corpusRef, k);
    }
    hide ReceiptFindings;
  }

  lemma ReceiptCodes(entry: Json, r: Json, corpusRef: Json, k: Code)
    requires k in ReceiptFindings(entry, r, corpusRef)
    ensures ReceiptCode(k)
  {
    RawCode(r, k);
    BindingCodes(k);
    hide Get, Equal, RelPath, RawFindings, ExclusionFindings, BindingFindings;
  }

  lemma BindingCodes(k: Code)
    ensures forall a, b, c, d, e, f :: k in BindingFindings(a, b, c, d, e, f) ==> ReceiptCode(k)
  {}

  lemma RawCode(r: Json, k: Code)
    ensures k in RawFindings(r) ==> k == RawContentPresent
    ensures k in ExclusionFindings(r) ==> k == MissingExclusion
  {
    hide Get, HasMember;
  }

  /** The ten conclusions see everything the loop reports. */
  lemma GateOfReceipts(drawn: map<Code, Conclusion>, entries: seq<Json>, files: string -> ReceiptFile, corpusRef: Json)
    requires forall k :: k in drawn <==> ReceiptCode(k)
    requires forall k :: k in drawn ==>
      drawn[k] == if entries == [] then NotEvaluated else Drawn(k, EntriesFindings(entries, files, corpusRef))
    ensures (forall k :: k in drawn ==> !drawn[k].False?) <==> EntriesFindings(entries, files, corpusRef) == []
  {
    EntriesCodes(entries, files, corpusRef);
    var found := EntriesFindings(entries, files, corpusRef);
    if found != [] {
      assert found[0] in found;
      hide EntriesFindings, ReceiptCode;
      assert drawn[found[0]].False?;
    }
  }

  /** So do the three conclusions on coverage. */
  lemma {:induction false} CoverageSilentAll(occs: seq<Json>, sets: Sets)
    ensures var found := CoverageFindings(occs, sets);
      found == [] <==> NotAccounted !in found && SkipCategoryMalformed !in found && DuplicateViolation !in found
                       && NullParserViolation !in found
  {
    var found := CoverageFindings(occs, sets);
    if occs != [] {
      CoverageSilentAll(occs[..|occs| - 1], sets);
      var last := OccurrenceFindings(occs[|occs| - 1], sets);
      assert last != [] ==> last[0] in found;
      hide CategoriesOf, Usable, IsDuplicate, NoParser;
    }
  }

  // ----- the report -----

  /** A document that cannot be read or parsed is None. */
  datatype Inputs = Inputs(
    runDoc: Option<Json>, manifest: Option<Json>, files: string -> ReceiptFile, profileDigest: Option<string>)

  /** All conclusions but the ten on the receipts. */
  datatype Conclusions = Conclusions(
    runDocSchema: Conclusion, boundaryDeclarations: Conclusion, receiptSetManifestSchema: Conclusion,
    runIdLinkage: Conclusion, profileManifestPin: Conclusion, profileManifestAuthority: Conclusion,
    occurrenceAccounting: Conclusion, duplicatePosture: Conclusion, nullParserPosture: Conclusion)

  /** What propagation leaves: a conclusion already drawn stays. */
  function Closed(c: Conclusion): Conclusion { if c.NotEvaluated? then False else c }

  class IngestRunSequenceReport {
    var runDocSchema: Conclusion
    var boundaryDeclarations: Conclusion
    var receiptSetManifestSchema: Conclusion
    var runIdLinkage: Conclusion
    var profileManifestPin: Conclusion
    var profileManifestAuthority: Conclusion
    /** The ten conclusions drawn over all emitted receipts, by the code that makes one FALSE. */
    var perReceipt: map<Code, Conclusion>
    var occurrenceAccounting: Conclusion
    var duplicatePosture: Conclusion
    var nullParserPosture: Conclusion
    var findings: seq<Code>

    ghost predicate Valid()
      reads this
    {
      forall k :: k in perReceipt <==> ReceiptCode(k)
    }

    ghost function Contents(): Conclusions
      reads this
    {
      Conclusions(runDocSchema, boundaryDeclarations, receiptSetManifestSchema, runIdLinkage, profileManifestPin,
                  profileManifestAuthority, occurrenceAccounting, duplicatePosture, nullParserPosture)
    }

    /** Nothing has been checked yet. */
    ghost predicate Untouched()
      reads this
    {
      && findings == [] && (forall k :: k in perReceipt ==> perReceipt[k] == NotEvaluated)
      && Contents() == Conclusions(NotEvaluated, NotEvaluated, NotEvaluated, NotEvaluated, NotEvaluated, NotEvaluated,
                                   NotEvaluated, NotEvaluated, NotEvaluated)
    }

    constructor ()
      ensures Valid() && Untouched()
    {
      runDocSchema, boundaryDeclarations, receiptSetManifestSchema := NotEvaluated, NotEvaluated, NotEvaluated;
      runIdLinkage, profileManifestPin, profileManifestAuthority := NotEvaluated, NotEvaluated, NotEvaluated;
      perReceipt := map k: Code | ReceiptCode(k) :: NotEvaluated;
      occurrenceAccounting, duplicatePosture, nullParserPosture := NotEvaluated, NotEvaluated, NotEvaluated;
      findings := [];
    }

    /** `passed`: the six core conclusions are drawn and no other one is false. */
    predicate Passed()
      reads this
    {
      && runDocSchema.True? && boundaryDeclarations.True? && receiptSetManifestSchema.True? && runIdLinkage.True?
      && profileManifestPin.True? && profileManifestAuthority.True?
      && (forall k :: k in perReceipt ==> !perReceipt[k].False?)
      && !occurrenceAccounting.False? && !duplicatePosture.False? && !nullParserPosture.False?
    }

    method CheckRunDoc(doc: Json)
      modifies `findings, `runDocSchema, `boundaryDeclarations
      ensures findings == old(findings) + RunDocFindings(doc)
      ensures runDocSchema == Concluded(RunSchemaFindings(doc) == [])
      ensures boundaryDeclarations == Concluded(BoundaryFindings(doc) == [])
    {
      hide BoundaryFindings, RunSchemaFindings;
      runDocSchema := Concluded(RunSchemaFindings(doc) == []);
      boundaryDeclarations := Concluded(BoundaryFindings(doc) == []);
      findings := findings + RunDocFindings(doc);
    }

    method CheckManifest(i: Inputs, doc: Json, manifest: Json)
      modifies `findings, `receiptSetManifestSchema, `runIdLinkage, `profileManifestPin, `profileManifestAuthority
      ensures findings == old(findings) + LinkageFindings(i, doc, manifest)
      ensures receiptSetManifestSchema == Concluded(ManifestFindings(manifest) == [])
      ensures runIdLinkage == Concluded(RunIdFindings(doc, manifest) == [])
      ensures profileManifestPin == Concluded(PinFindings(i.profileDigest, manifest) == [])
      ensures profileManifestAuthority == Concluded(AuthorityFindings(manifest) == [])
    {
      hide ManifestFindings, RunIdFindings, PinFindings, AuthorityFindings;
      receiptSetManifestSchema := Concluded(ManifestFindings(manifest) == []);
      runIdLinkage := Concluded(RunIdFindings(doc, manifest) == []);
      profileManifestPin := Concluded(PinFindings(i.profileDigest, manifest) == []);
      profileManifestAuthority := Concluded(AuthorityFindings(manifest) == []);
      findings := findings + LinkageFindings(i, doc, manifest);
    }

    /** The loop over the emitted receipts. The flags it clears are kept as the set of their codes;
        without entries nothing is concluded. */
    method CheckReceipts(entries: seq<Json>, files: string -> ReceiptFile, corpusRef: Json)
      requires Valid() && forall k :: k in perReceipt ==> perReceipt[k] == NotEvaluated
      modifies `findings, `perReceipt
      ensures Valid()
      ensures findings == old(findings) + EntriesFindings(entries, files, corpusRef)
      ensures forall k :: k in perReceipt ==>
        perReceipt[k] == if entries == [] then NotEvaluated else Drawn(k, EntriesFindings(entries, files, corpusRef))
    {
      hide EntryFindings, ReceiptCode;
      var cleared: set<Code> := {};
      assert entries[..0] == [];
      for n := 0 to |entries|
        invariant perReceipt == old(perReceipt)
        invariant findings == old(findings) + EntriesFindings(entries[..n], files, corpusRef)
        invariant forall k :: k in cleared <==> k in EntriesFindings(entries[..n], files, corpusRef)
      {
        assert entries[..n + 1][..n] == entries[..n];
        var found := EntryFindings(entries[n], files, corpusRef);
        findings := findings + found;
        cleared := cleared + (set k | k in found);
      }
      assert entries[..|entries|] == entries;
      if entries != [] {
        ghost var before := perReceipt;
        perReceipt := map k | k in perReceipt :: if k in cleared then False else True;
        assert forall k :: k in perReceipt <==> k in before;
        assert forall k :: k in perReceipt ==> perReceipt[k] == Drawn(k, EntriesFindings(entries, files, corpusRef));
      }
    }

    /** Coverage and posture over the file occurrences; without any, nothing is concluded. */
    method CheckCoverage(occurrences: Json, skipOk: bool, sets: Sets)
      modifies `findings, `occurrenceAccounting, `duplicatePosture, `nullParserPosture
      ensures findings == old(findings) + CoverageFindings(Occurrences(occurrences), sets)
      ensures var occs, found := Occurrences(occurrences), CoverageFindings(Occurrences(occurrences), sets);
        if occs == [] then
          occurrenceAccounting == NotEvaluated && duplicatePosture == NotEvaluated && nullParserPosture == NotEvaluated
        else
          && occurrenceAccounting == Concluded(NotAccounted !in found && SkipCategoryMalformed !in found && skipOk)
          && duplicatePosture == Concluded(DuplicateViolation !in found)
          && nullParserPosture == Concluded(NullParserViolation !in found)
    {
      hide OccurrenceFindings;
      if !occurrences.Arr? || occurrences.items == [] {
        occurrenceAccounting, duplicatePosture, nullParserPosture := NotEvaluated, NotEvaluated, NotEvaluated;
        return;
      }
      var occs := occurrences.items;
      var accountingOk, duplicateOk, nullParserOk := true, true, true;
      assert occs[..0] == [];
      for n := 0 to |occs|
        invariant findings == old(findings) + CoverageFindings(occs[..n], sets)
        invariant accountingOk <==> NotAccounted !in CoverageFindings(occs[..n], sets)
                                    && SkipCategoryMalformed !in CoverageFindings(occs[..n], sets)
        invariant duplicateOk <==> DuplicateViolation !in CoverageFindings(occs[..n], sets)
        invariant nullParserOk <==> NullParserViolation !in CoverageFindings(occs[..n], sets)
      {
        assert occs[..n + 1][..n] == occs[..n];
        var found := CheckOccurrence(occs[n], sets);
        findings := findings + found;
        if NotAccounted in found || SkipCategoryMalformed in found { accountingOk := false; }
        if DuplicateViolation in found { duplicateOk := false; }
        if NullParserViolation in found { nullParserOk := false; }
      }
      assert occs[..|occs|] == occs;
      occurrenceAccounting := Concluded(accountingOk && skipOk);
      duplicatePosture := Concluded(duplicateOk);
      nullParserPosture := Concluded(nullParserOk);
    }

    /** One round of the coverage loop. */
    method CheckOccurrence(occ: Json, sets: Sets) returns (found: seq<Code>)
      ensures found == OccurrenceFindings(occ, sets)
    {
      hide RelPath, IsDuplicate, NoParser;
      if !occ.Obj? { return []; }
      var rel := RelPath(occ);
      if !rel.Str? || rel.s == [] { return [NotAccounted]; }
      var categories: seq<Category> := [];
      if rel.s in sets.emitted { categories := categories + [Emitted]; }
      if rel.s in sets.duplicate { categories := categories + [SkippedDuplicate]; }
      if rel.s in sets.noParser { categories := categories + [SkippedNoParser]; }
      if rel.s in sets.notApplicable { categories := categories + [ProfileNotApplicable]; }
      assert categories == CategoriesOf(rel.s, sets);
      hide CategoriesOf;
      found := Unless(categories != [], NotAccounted) + Unless(|categories| <= 1, SkipCategoryMalformed);
      found := found + Unless(!(IsDuplicate(occ) && Emitted in categories), DuplicateViolation);
      found := found + Unless(!(NoParser(occ) && Emitted in categories), NullParserViolation);
    }

    /** The run document could not be used: everything else is false. */
    method PropagateFalseEarly()
      modifies this
      ensures findings == old(findings) && runDocSchema == old(runDocSchema)
      ensures boundaryDeclarations == Closed(old(boundaryDeclarations))
      ensures receiptSetManifestSchema == Closed(old(receiptSetManifestSchema))
      ensures runIdLinkage == Closed(old(runIdLinkage)) && profileManifestPin == Closed(old(profileManifestPin))
      ensures profileManifestAuthority == Closed(old(profileManifestAuthority))
      ensures forall k :: k in perReceipt <==> k in old(perReceipt)
      ensures forall k :: k in perReceipt ==> perReceipt[k] == Closed(old(perReceipt)[k])
      ensures occurrenceAccounting == Closed(old(occurrenceAccounting))
      ensures duplicatePosture == Closed(old(duplicatePosture)) && nullParserPosture == Closed(old(nullParserPosture))
    {
      if boundaryDeclarations.NotEvaluated? { boundaryDeclarations := False; }
      if receiptSetManifestSchema.NotEvaluated? { receiptSetManifestSchema := False; }
      PropagateFalseOnMissingManifest();
    }

    method CloseReceipts()
      modifies `perReceipt
      ensures forall k :: k in perReceipt <==> k in old(perReceipt)
      ensures forall k :: k in perReceipt ==> perReceipt[k] == Closed(old(perReceipt)[k])
    {
      perReceipt := map k | k in perReceipt :: Closed(perReceipt[k]);
    }

    method PropagateFalseOnMissingManifest()
      modifies `runIdLinkage, `profileManifestPin, `profileManifestAuthority, `perReceipt, `occurrenceAccounting,
               `duplicatePosture, `nullParserPosture
      ensures runIdLinkage == Closed(old(runIdLinkage)) && profileManifestPin == Closed(old(profileManifestPin))
      ensures profileManifestAuthority == Closed(old(profileManifestAuthority))
      ensures forall k :: k in perReceipt <==> k in old(perReceipt)
      ensures forall k :: k in perReceipt ==> perReceipt[k] == Closed(old(perReceipt)[k])
      ensures occurrenceAccounting == Closed(old(occurrenceAccounting))
      ensures duplicatePosture == Closed(old(duplicatePosture)) && nullParserPosture == Closed(old(nullParserPosture))
    {
      if runIdLinkage.NotEvaluated? { runIdLinkage := False; }
      if profileManifestPin.NotEvaluated? { profileManifestPin := False; }
      if profileManifestAuthority.NotEvaluated? { profileManifestAuthority := False; }
      CloseReceipts();
      if occurrenceAccounting.NotEvaluated? { occurrenceAccounting := False; }
      if duplicatePosture.NotEvaluated? { duplicatePosture := False; }
      if nullParserPosture.NotEvaluated? { nullParserPosture := False; }
    }

    predicate CoreTrue()
      reads this
    {
      && runDocSchema.True? && boundaryDeclarations.True? && receiptSetManifestSchema.True? && runIdLinkage.True?
      && profileManifestPin.True? && profileManifestAuthority.True?
    }

    predicate ReceiptsGate()
      reads this
    {
      forall k :: k in perReceipt ==> !perReceipt[k].False?
    }

    predicate CoverageGate()
      reads this
    {
      !occurrenceAccounting.False? && !duplicatePosture.False? && !nullParserPosture.False?
    }

    method VerifyReceipts(i: Inputs)
      requires HasManifest(i) && Valid() && forall k :: k in perReceipt ==> perReceipt[k] == NotEvaluated
      modifies `findings, `perReceipt
      ensures Valid() && findings == old(findings) + ReceiptLoopFindings(i)
      ensures ReceiptsGate() <==> ReceiptLoopFindings(i) == []
      ensures forall k :: k in perReceipt ==> perReceipt[k] == ReceiptConclusion(i, k)
    {
      hide EntriesFindings, Entries, CorpusRef;
      var entries, corpusRef := Entries(i.manifest.value), CorpusRef(i.runDoc.value);
      CheckReceipts(entries, i.files, corpusRef);
      GateOfReceipts(perReceipt, entries, i.files, corpusRef);
    }

    /** False when a malformed skip category is a number, over which the source raises a type
        error. */
    method VerifyCoverage(i: Inputs) returns (finished: bool)
      requires HasManifest(i)
      modifies `findings, `occurrenceAccounting, `duplicatePosture, `nullParserPosture
      ensures finished <==> Finishes(i)
      ensures finished ==> findings == old(findings) + SkipFindings(i.manifest.value) + CoverageLoopFindings(i)
      ensures finished ==> (CoverageGate() <==> CoverageGates(i))
      ensures finished ==> occurrenceAccounting == AccountingConclusion(i)
      ensures finished ==> duplicatePosture == PostureConclusion(i, DuplicateViolation)
      ensures finished ==> nullParserPosture == PostureConclusion(i, NullParserViolation)
    {
      hide CoverageFindings, SkipFindings, SetsOf, Get;
      var manifest := i.manifest.value;
      findings := findings + SkipFindings(manifest);
      var sets := SetsOf(manifest);
      if sets.None? { return false; }
      CheckCoverage(Get(i.runDoc.value, "file_occurrences"), SkipFindings(manifest) == [], sets.value);
      CoverageSilentAll(OccurrencesOf(i), sets.value);
      return true;
    }

    /** The checks that need both documents. */
    method VerifyDocuments(i: Inputs) returns (finished: bool)
      requires HasManifest(i) && Valid() && forall k :: k in perReceipt ==> perReceipt[k] == NotEvaluated
      modifies this
      ensures finished <==> Finishes(i)
      ensures finished ==> findings == old(findings) + DocumentFindings(i)
      ensures finished ==> (CoreTrue() <==> RunDocFindings(i.runDoc.value) == []
                                            && LinkageFindings(i, i.runDoc.value, i.manifest.value) == [])
      ensures finished ==> (ReceiptsGate() <==> ReceiptLoopFindings(i) == [])
      ensures finished ==> (CoverageGate() <==> CoverageGates(i))
      ensures finished ==> Contents() == DocumentConclusions(i)
      ensures finished ==> Valid() && forall k :: k in perReceipt ==> perReceipt[k] == ReceiptConclusion(i, k)
    {
      hide SkipFindings, LinkageFindings, RunDocFindings, RunSchemaFindings, BoundaryFindings, ManifestFindings,
           RunIdFindings, PinFindings, AuthorityFindings, CoverageGates, ReceiptLoopFindings, CoverageLoopFindings,
           Finishes, ReceiptConclusion, AccountingConclusion, PostureConclusion, ReceiptCode;
      CheckRunDoc(i.runDoc.value);
      CheckManifest(i, i.runDoc.value, i.manifest.value);
      LinkageEmpty(i, i.runDoc.value, i.manifest.value);
      assert CoreTrue() <==> RunDocFindings(i.runDoc.value) == []
                             && LinkageFindings(i, i.runDoc.value, i.manifest.value) == [];
      VerifyReceipts(i);
      ghost var drawn := perReceipt;
      finished := VerifyCoverage(i);
      assert perReceipt == drawn;
    }

    /** `verify_ingest_run_sequence`. */
    method Verify(i: Inputs) returns (finished: bool)
      requires Valid() && Untouched()
      modifies this
      ensures finished <==> Finishes(i)
      ensures finished ==> findings == AllFindings(i)
      ensures finished ==> Contents() == ConclusionsOf(i)
      ensures finished ==> Valid() && forall k :: k in perReceipt ==> perReceipt[k] == ReceiptConclusion(i, k)
      ensures finished ==> (Passed() <==> AllPassed(i))
    {
      hide CoverageGates, ReceiptLoopFindings, LinkageFindings, RunDocFindings, DocumentFindings, DocumentConclusions,
           ReceiptCode, Entries;
      if !HasRunDoc(i) {
        findings := findings + [RunSchemaMismatch];
        runDocSchema := False;
        PropagateFalseEarly();
        return true;
      }
      if !HasManifest(i) {
        CheckRunDoc(i.runDoc.value);
        findings := findings + [ManifestSchemaMismatch];
        receiptSetManifestSchema := False;
        PropagateFalseOnMissingManifest();
        return true;
      }
      finished := VerifyDocuments(i);
      assert Passed() <==> CoreTrue() && ReceiptsGate() && CoverageGate();
    }
  }

  function Occurrences(v: Json): seq<Json> { if v.Arr? then v.items else [] }

  function LinkageFindings(i: Inputs, doc: Json, manifest: Json): seq<Code> {
    ManifestFindings(manifest) + RunIdFindings(doc, manifest) + PinFindings(i.profileDigest, manifest)
    + AuthorityFindings(manifest)
  }

  lemma LinkageEmpty(i: Inputs, doc: Json, manifest: Json)
    ensures LinkageFindings(i, doc, manifest) == [] <==>
      && ManifestFindings(manifest) == [] && RunIdFindings(doc, manifest) == []
      && PinFindings(i.profileDigest, manifest) == [] && AuthorityFindings(manifest) == []
    ensures RunDocFindings(doc) == [] <==> RunSchemaFindings(doc) == [] && BoundaryFindings(doc) == []
  {
    hide ManifestFindings, RunIdFindings, PinFindings, AuthorityFindings, RunSchemaFindings, BoundaryFindings;
  }

  predicate HasRunDoc(i: Inputs) { i.runDoc.Some? && i.runDoc.value.Obj? }

  predicate HasManifest(i: Inputs) { HasRunDoc(i) && i.manifest.Some? && i.manifest.value.Obj? }

  predicate Finishes(i: Inputs) { HasManifest(i) ==> SetsOf(i.manifest.value).Some? }

  function OccurrencesOf(i: Inputs): seq<Json>
    requires HasRunDoc(i)
  {
    Occurrences(Get(i.runDoc.value, "file_occurrences"))
  }

  function ReceiptLoopFindings(i: Inputs): seq<Code>
    requires HasManifest(i)
  {
    EntriesFindings(Entries(i.manifest.value), i.files, CorpusRef(i.runDoc.value))
  }

  function CoverageLoopFindings(i: Inputs): seq<Code>
    requires HasManifest(i) && Finishes(i)
  {
    CoverageFindings(OccurrencesOf(i), SetsOf(i.manifest.value).value)
  }

  function RunDocFindings(doc: Json): seq<Code> { RunSchemaFindings(doc) + BoundaryFindings(doc) }

  function AllFindings(i: Inputs): seq<Code>
    requires Finishes(i)
  {
    if !HasRunDoc(i) then [RunSchemaMismatch]
    else if !HasManifest(i) then RunDocFindings(i.runDoc.value) + [ManifestSchemaMismatch]
    else DocumentFindings(i)
  }

  function DocumentFindings(i: Inputs): seq<Code>
    requires HasManifest(i) && Finishes(i)
  {
    RunDocFindings(i.runDoc.value) + LinkageFindings(i, i.runDoc.value, i.manifest.value)
    + ReceiptLoopFindings(i) + SkipFindings(i.manifest.value) + CoverageLoopFindings(i)
  }

  predicate CoverageGates(i: Inputs)
    requires HasManifest(i) && Finishes(i)
  {
    OccurrencesOf(i) == [] || (SkipFindings(i.manifest.value) == [] && CoverageLoopFindings(i) == [])
  }

  /** The conclusion on the receipts a code stands for. */
  function ReceiptConclusion(i: Inputs, k: Code): Conclusion {
    if !HasManifest(i) then False
    else if Entries(i.manifest.value) == [] then NotEvaluated
    else Drawn(k, ReceiptLoopFindings(i))
  }

  function AccountingConclusion(i: Inputs): Conclusion
    requires HasManifest(i) && Finishes(i)
  {
    if OccurrencesOf(i) == [] then NotEvaluated
    else Concluded(NotAccounted !in CoverageLoopFindings(i) && SkipCategoryMalformed !in CoverageLoopFindings(i)
                   && SkipFindings(i.manifest.value) == [])
  }

  function PostureConclusion(i: Inputs, k: Code): Conclusion
    requires HasManifest(i) && Finishes(i)
  {
    if OccurrencesOf(i) == [] then NotEvaluated else Drawn(k, CoverageLoopFindings(i))
  }

  function DocumentConclusions(i: Inputs): Conclusions
    requires HasManifest(i) && Finishes(i)
  {
    var doc, manifest := i.runDoc.value, i.manifest.value;
    Conclusions(
      Concluded(RunSchemaFindings(doc) == []), Concluded(BoundaryFindings(doc) == []),
      Concluded(ManifestFindings(manifest) == []), Concluded(RunIdFindings(doc, manifest) == []),
      Concluded(PinFindings(i.profileDigest, manifest) == []), Concluded(AuthorityFindings(manifest) == []),
      AccountingConclusion(i), PostureConclusion(i, DuplicateViolation), PostureConclusion(i, NullParserViolation))
  }

  /** Without a usable manifest only the run document is judged; without a run document nothing is. */
  function ConclusionsOf(i: Inputs): Conclusions
    requires Finishes(i)
  {
    if !HasRunDoc(i) then Conclusions(False, False, False, False, False, False, False, False, False)
    else if !HasManifest(i) then
      Conclusions(Concluded(RunSchemaFindings(i.runDoc.value) == []), Concluded(BoundaryFindings(i.runDoc.value) == []),
                  False, False, False, False, False, False, False)
    else DocumentConclusions(i)
  }

  /** When the report passes. */
  predicate AllPassed(i: Inputs)
    requires Finishes(i)
  {
    && HasManifest(i) && RunDocFindings(i.runDoc.value) == []
    && LinkageFindings(i, i.runDoc.value, i.manifest.value) == []
    && ReceiptLoopFindings(i) == [] && CoverageGates(i)
  }

  // ----- passing and findings -----

  /** Both documents are usable, declare what they must and are bound to each other and to the pinned
      profile. */
  predicate Linked(i: Inputs)
  {
    && HasManifest(i)
    && Declared(i.runDoc.value) && Listed(i.manifest.value)
    && Equal(Get(i.runDoc.value, "run_id"), Get(i.manifest.value, "run_id"))
    && DeclaredPin(i.manifest.value) == Str(PROFILE_SHA256) && i.profileDigest == Some(PROFILE_SHA256)
  }

  predicate Declared(doc: Json) {
    var b := Get(doc, "boundary");
    && Get(doc, "schema") == Str(RUN_DOC_SCHEMA)
    && b.Obj? && Get(b, "no_arcs_srs") == Bool(true) && Get(b, "no_receipts_issued") == Bool(true)
    && Get(b, "no_network") == Bool(true)
  }

  predicate Listed(manifest: Json) {
    Get(manifest, "schema") == Str(MANIFEST_SCHEMA) && Get(manifest, "emitted_receipts").Arr?
  }

  /** The receipt says what its entry says, and holds none of the content it must leave out. */
  predicate Bound(entry: Json, r: Json, corpusRef: Json) {
    && Get(r, "protocol_binding") == Str(PROTOCOL_BINDING)
    && Equal(Get(r, "receipt_id"), Get(entry, "receipt_id"))
    && Equal(Get(r, "subject_ref"), Get(entry, "subject_ref"))
    && Equal(Get(r, "subject_ref"), Get(r, "publication_artifact_id"))
    && Equal(Get(r, "relative_path"), RelPath(entry))
    && Equal(Get(r, "corpus_manifest_ref"), corpusRef)
  }

  predicate Withheld(r: Json) {
    var excluded := Get(r, "artifact_classes_excluded");
    && !HasMember(r, "raw_publication_bytes") && !HasMember(r, "raw_frontmatter_yaml")
    && !HasMember(r, "raw_body_text")
    && excluded.Arr? && Str("raw_body_text") in excluded.items && Str("raw_frontmatter_yaml") in excluded.items
    && Str("raw_publication_bytes") in excluded.items
  }

  predicate Filed(entry: Json, files: string -> ReceiptFile, corpusRef: Json) {
    var id := Get(entry, "receipt_id");
    && id.Str? && id.s != [] && files(id.s).Parsed? && files(id.s).value.Obj?
    && Bound(entry, files(id.s).value, corpusRef) && Withheld(files(id.s).value)
  }

  predicate AllFiled(i: Inputs)
    requires HasManifest(i)
  {
    var es := Entries(i.manifest.value);
    forall n :: 0 <= n < |es| ==> Filed(es[n], i.files, CorpusRef(i.runDoc.value))
  }

  predicate SkipsListed(manifest: Json) {
    && ListOfTexts(SkipValue(manifest, SkippedDuplicate)) && ListOfTexts(SkipValue(manifest, SkippedNoParser))
    && ListOfTexts(SkipValue(manifest, ProfileNotApplicable))
  }

  /** In exactly one category, and not emitted when a duplicate or without a parser. */
  predicate Covered(occ: Json, sets: Sets) {
    occ.Obj? ==> InOne(occ, sets) && (IsDuplicate(occ) || NoParser(occ) ==> !InCategory(occ, Emitted, sets))
  }

  predicate AllCovered(i: Inputs)
    requires HasManifest(i) && Finishes(i)
  {
    var occs := OccurrencesOf(i);
    forall n :: 0 <= n < |occs| ==> Covered(occs[n], SetsOf(i.manifest.value).value)
  }

  lemma DocumentsClean(i: Inputs)
    requires HasManifest(i)
    ensures Linked(i) <==> RunDocFindings(i.runDoc.value) == []
                           && LinkageFindings(i, i.runDoc.value, i.manifest.value) == []
  {
    LinkageEmpty(i, i.runDoc.value, i.manifest.value);
    hide LinkageFindings, RunDocFindings, Equal, Get, DeclaredPin;
  }

  lemma SkipsClean(manifest: Json)
    ensures SkipsListed(manifest) <==> SkipFindings(manifest) == []
  {
    hide ListOfTexts, SkipValue;
  }

  lemma BindingClean(a: bool, b: bool, c: bool, d: bool, e: bool, f: bool)
    ensures BindingFindings(a, b, c, d, e, f) == [] <==> a && b && c && d && e && f
  {}

  lemma WithheldClean(r: Json)
    ensures RawFindings(r) == [] && ExclusionFindings(r) == [] <==> Withheld(r)
  {
    hide HasMember, Get;
  }

  lemma ReceiptClean(entry: Json, r: Json, corpusRef: Json)
    ensures ReceiptFindings(entry, r, corpusRef) == [] <==> Bound(entry, r, corpusRef) && Withheld(r)
  {
    hide Equal, Get, RelPath, RawFindings, ExclusionFindings, BindingFindings, Withheld;
    WithheldClean(r);
    BindingClean(
      Get(r, "protocol_binding") == Str(PROTOCOL_BINDING),
      Equal(Get(r, "receipt_id"), Get(entry, "receipt_id")),
      Equal(Get(r, "subject_ref"), Get(entry, "subject_ref")),
      Equal(Get(r, "subject_ref"), Get(r, "publication_artifact_id")),
      Equal(Get(r, "relative_path"), RelPath(entry)),
      Equal(Get(r, "corpus_manifest_ref"), corpusRef));
  }

  lemma EntryClean(entry: Json, files: string -> ReceiptFile, corpusRef: Json)
    ensures EntryFindings(entry, files, corpusRef) == [] <==> Filed(entry, files, corpusRef)
  {
    var id := Get(entry, "receipt_id");
    hide ReceiptFindings, Bound, Withheld;
    if id.Str? && id.s != [] && files(id.s).Parsed? { ReceiptClean(entry, files(id.s).value, corpusRef); }
  }

  lemma {:induction false} EntriesClean(entries: seq<Json>, files: string -> ReceiptFile, corpusRef: Json)
    ensures EntriesFindings(entries, files, corpusRef) == []
       <==> forall n :: 0 <= n < |entries| ==> Filed(entries[n], files, corpusRef)
  {
    hide EntryFindings, Filed;
    if entries != [] {
      var last := |entries| - 1;
      EntriesClean(entries[..last], files, corpusRef);
      EntryClean(entries[last], files, corpusRef);
      assert forall n :: 0 <= n < last ==> entries[..last][n] == entries[n];
    }
  }

  lemma OccurrenceClean(occ: Json, sets: Sets)
    ensures OccurrenceFindings(occ, sets) == [] <==> Covered(occ, sets)
  {
    if occ.Obj? {
      OneCategory(occ, sets);
      hide IsDuplicate, NoParser, RelPath, InOne;
      if Usable(occ).Some? {
        CategoriesListed(occ, sets);
        hide CategoriesOf, Usable, InCategory;
      }
    }
  }

  lemma {:induction false} CoverageClean(occs: seq<Json>, sets: Sets)
    ensures CoverageFindings(occs, sets) == [] <==> forall n :: 0 <= n < |occs| ==> Covered(occs[n], sets)
  {
    hide OccurrenceFindings, Covered;
    if occs != [] {
      var last := |occs| - 1;
      CoverageClean(occs[..last], sets);
      OccurrenceClean(occs[last], sets);
      assert forall n :: 0 <= n < last ==> occs[..last][n] == occs[n];
    }
  }

  /** Passing and finding nothing, told from the two documents and the receipts alone. They part
      exactly when everything is linked and filed, there are no file occurrences, and a skip category
      is not a list of texts. */
  lemma PassedExactly(i: Inputs)
    requires Finishes(i)
    ensures AllPassed(i) <==>
      Linked(i) && AllFiled(i) && (OccurrencesOf(i) == [] || (SkipsListed(i.manifest.value) && AllCovered(i)))
    ensures AllFindings(i) == [] <==> Linked(i) && AllFiled(i) && SkipsListed(i.manifest.value) && AllCovered(i)
    ensures AllFindings(i) == [] ==> AllPassed(i)
    ensures AllPassed(i) && AllFindings(i) != [] <==>
      Linked(i) && AllFiled(i) && OccurrencesOf(i) == [] && !SkipsListed(i.manifest.value)
  {
    if HasManifest(i) {
      DocumentsClean(i);
      SkipsClean(i.manifest.value);
      EntriesClean(Entries(i.manifest.value), i.files, CorpusRef(i.runDoc.value));
      CoverageClean(OccurrencesOf(i), SetsOf(i.manifest.value).value);
      hide RunDocFindings, LinkageFindings, EntriesFindings, SkipFindings, CoverageFindings, Linked, Filed, SkipsListed,
           Covered, SetsOf, Entries, Get, CorpusRef;
      FiveEmpty(RunDocFindings(i.runDoc.value), LinkageFindings(i, i.runDoc.value, i.manifest.value),
                ReceiptLoopFindings(i), SkipFindings(i.manifest.value), CoverageLoopFindings(i));
    } else {
      hide RunDocFindings;
    }
  }

  lemma FiveEmpty<T>(a: seq<T>, b: seq<T>, c: seq<T>, d: seq<T>, e: seq<T>)
    ensures a + b + c + d + e == [] <==> a == [] && b == [] && c == [] && d == [] && e == []
  {
    assert |a + b + c + d + e| == |a| + |b| + |c| + |d| + |e|;
  }

  /** With at least one file occurrence, passing means that nothing was found. */
  lemma PassedWithOccurrences(i: Inputs)
    requires Finishes(i) && HasManifest(i) && OccurrencesOf(i) != []
    ensures AllPassed(i) <==> AllFindings(i) == []
  {
    PassedExactly(i);
  }

  const BARE_BOUNDARY := Obj([Member("no_arcs_srs", Bool(true)), Member("no_receipts_issued", Bool(true)),
                              Member("no_network", Bool(true))])

  const BARE_RUN := Obj([Member("schema", Str(RUN_DOC_SCHEMA)), Member("run_id", Str("r")),
                         Member("boundary", BARE_BOUNDARY)])

  const BARE_MANIFEST := Obj([Member("schema", Str(MANIFEST_SCHEMA)), Member("emitted_receipts", Arr([])),
                              Member("run_id", Str("r")), Member("profile_manifest_sha256", Str(PROFILE_SHA256))])

  /** Without file occurrences a run can pass although findings were recorded: here the manifest has
      none of the three skip categories. */
  lemma PassesWithFindings()
    ensures var i := Inputs(Some(BARE_RUN), Some(BARE_MANIFEST), (_ => Absent), Some(PROFILE_SHA256));
      Finishes(i) && AllPassed(i) && AllFindings(i) == [SkipCategoryMalformed, SkipCategoryMalformed, SkipCategoryMalformed]
  {
    var i := Inputs(Some(BARE_RUN), Some(BARE_MANIFEST), (_ => Absent), Some(PROFILE_SHA256));
    BareRun();
    BareManifest();
    BareManifestSkips();
    hide Get, HasKey;
    assert SetsOf(BARE_MANIFEST).Some?;
    assert SkipFindings(BARE_MANIFEST) == [SkipCategoryMalformed, SkipCategoryMalformed, SkipCategoryMalformed];
    assert RunDocFindings(BARE_RUN) == [] && LinkageFindings(i, BARE_RUN, BARE_MANIFEST) == [];
    assert ReceiptLoopFindings(i) == [] && OccurrencesOf(i) == [];
    PassedExactly(i);
  }

  lemma BareRun()
    ensures Get(BARE_RUN, "schema") == Str(RUN_DOC_SCHEMA) && Get(BARE_RUN, "run_id") == Str("r")
    ensures Get(BARE_RUN, "boundary") == BARE_BOUNDARY && Get(BARE_RUN, "file_occurrences") == Null
    ensures Get(BARE_BOUNDARY, "no_arcs_srs") == Bool(true) && Get(BARE_BOUNDARY, "no_receipts_issued") == Bool(true)
    ensures Get(BARE_BOUNDARY, "no_network") == Bool(true)
  {
    var ms, bs := BARE_RUN.members, BARE_BOUNDARY.members;
    DifferAt(ms[0].key, "run_id", 0);
    DifferAt(ms[0].key, "boundary", 0);
    DifferAt(ms[1].key, "boundary", 0);
    DifferAt(ms[0].key, "file_occurrences", 0);
    DifferAt(ms[1].key, "file_occurrences", 0);
    DifferAt(ms[2].key, "file_occurrences", 0);
    DifferAt(bs[0].key, "no_receipts_issued", 3);
    DifferAt(bs[0].key, "no_network", 3);
    DifferAt(bs[1].key, "no_network", 3);
    LookupAt(ms, "schema", 0);
    LookupAt(ms, "run_id", 1);
    LookupAt(ms, "boundary", 2);
    LookupNone(ms, "file_occurrences");
    LookupAt(bs, "no_arcs_srs", 0);
    LookupAt(bs, "no_receipts_issued", 1);
    LookupAt(bs, "no_network", 2);
  }

  lemma BareManifest()
    ensures Get(BARE_MANIFEST, "schema") == Str(MANIFEST_SCHEMA) && Get(BARE_MANIFEST, "emitted_receipts") == Arr([])
    ensures Get(BARE_MANIFEST, "run_id") == Str("r") && DeclaredPin(BARE_MANIFEST) == Str(PROFILE_SHA256)
  {
    var ms := BARE_MANIFEST.members;
    DifferAt(ms[0].key, "emitted_receipts", 0);
    DifferAt(ms[0].key, "run_id", 0);
    DifferAt(ms[1].key, "run_id", 0);
    DifferAt(ms[0].key, "profile_manifest_sha256", 0);
    DifferAt(ms[1].key, "profile_manifest_sha256", 0);
    DifferAt(ms[2].key, "profile_manifest_sha256", 0);
    LookupAt(ms, "schema", 0);
    LookupAt(ms, "emitted_receipts", 1);
    LookupAt(ms, "run_id", 2);
    LookupAt(ms, "profile_manifest_sha256", 3);
  }

  lemma BareManifestSkips()
    ensures Get(BARE_MANIFEST, "skipped_duplicate") == Null && Get(BARE_MANIFEST, "skipped_no_parser") == Null
    ensures Get(BARE_MANIFEST, "profile_not_applicable") == Null
  {
    var ms := BARE_MANIFEST.members;
    DifferAt(ms[0].key, "skipped_duplicate", 1);
    DifferAt(ms[1].key, "skipped_duplicate", 0);
    DifferAt(ms[2].key, "skipped_duplicate", 0);
    DifferAt(ms[3].key, "skipped_duplicate", 0);
    DifferAt(ms[0].key, "skipped_no_parser", 1);
    DifferAt(ms[1].key, "skipped_no_parser", 0);
    DifferAt(ms[2].key, "skipped_no_parser", 0);
    DifferAt(ms[3].key, "skipped_no_parser", 0);
    DifferAt(ms[0].key, "profile_not_applicable", 0);
    DifferAt(ms[1].key, "profile_not_applicable", 0);
    DifferAt(ms[2].key, "profile_not_applicable", 0);
    DifferAt(ms[3].key, "profile_not_applicable", 8);
    LookupNone(ms, "skipped_duplicate");
    LookupNone(ms, "skipped_no_parser");
    LookupNone(ms, "profile_not_applicable");
  }

  lemma DifferAt(s: string, t: string, i: nat)
    requires i < |s| && i < |t| && s[i] != t[i]
    ensures s != t
  {}
}
