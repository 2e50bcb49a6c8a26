/** `ingest_run_sequence.py`: which finding the report of a run holds, and which conclusion it draws,
    told by the members of the two documents and of the receipt files alone. */
module IngestFindings {
  import opened JsonValue
  import opened IngestRun

  predicate RunDocRead(i: Inputs) { i.runDoc.Some? && i.runDoc.value.Obj? }

  predicate BothRead(i: Inputs) { RunDocRead(i) && i.manifest.Some? && i.manifest.value.Obj? }

  predicate GivenText(v: Json) { v.Str? && |v.s| > 0 }

  // ----- the two documents -----

  function Pin(manifest: Json): Json
    requires manifest.Obj?
  {
    if HasKey(manifest.members, "profile_manifest_sha256") then Get(manifest, "profile_manifest_sha256") else Str("")
  }

  /** The code is recorded against the run document or the manifest. */
  predicate DocumentDraws(c: Code, i: Inputs) {
    match c
    case RunSchemaMismatch => RunDocRead(i) ==> Get(i.runDoc.value, "schema") != Str(RUN_DOC_SCHEMA)
    case BoundaryViolation =>
      RunDocRead(i) &&
      var b := Get(i.runDoc.value, "boundary");
      (!b.Obj? || Get(b, "no_arcs_srs") != Bool(true) || Get(b, "no_receipts_issued") != Bool(true)
       || Get(b, "no_network") != Bool(true))
    case ManifestSchemaMismatch =>
      RunDocRead(i) &&
      (BothRead(i) ==>
         Get(i.manifest.value, "schema") != Str(MANIFEST_SCHEMA) || !Get(i.manifest.value, "emitted_receipts").Arr?)
    case RunIdMismatch => BothRead(i) && Abs(Get(i.runDoc.value, "run_id")) != Abs(Get(i.manifest.value, "run_id"))
    case PinMismatch =>
      BothRead(i) && (i.profileDigest.Some? ==> Pin(i.manifest.value) != Str(i.profileDigest.value))
    case AuthorityMismatch => BothRead(i) && Pin(i.manifest.value) != Str(PROFILE_SHA256)
    case _ => false
  }

  // ----- the receipts -----

  /** The entry names a file that holds a dict. */
  predicate Opened(entry: Json, files: string -> ReceiptFile) {
    var id := Get(entry, "receipt_id");
    GivenText(id) && files(id.s).Parsed? && files(id.s).value.Obj?
  }

  predicate Excludes(r: Json, kind: string) {
    var excluded := Get(r, "artifact_classes_excluded");
    excluded.Arr? && Str(kind) in excluded.items
  }

  /** What a receipt must give as its corpus reference. */
  function Corpus(doc: Json): Value {
    if Get(doc, "run_id").Str? then VStr("sha256:" + Get(doc, "run_id").s) else VNull
  }

  predicate Mismatch(r: Json, k: string, v: Json) { Abs(Get(r, k)) != Abs(v) }

  /** The code is recorded against the receipt r of an entry. */
  predicate ReceiptDraws(c: Code, entry: Json, r: Json, doc: Json)
    requires r.Obj?
  {
    match c
    case ProtocolMismatch => Get(r, "protocol_binding") != Str(PROTOCOL_BINDING)
    case ReceiptIdMismatch => Mismatch(r, "receipt_id", Get(entry, "receipt_id"))
    case SubjectRefMismatch => Mismatch(r, "subject_ref", Get(entry, "subject_ref"))
    case SubjectBindingMismatch => Mismatch(r, "subject_ref", Get(r, "publication_artifact_id"))
    case RelPathMismatch => Mismatch(r, "relative_path", Get(entry, "rel_path"))
    case CorpusRefMismatch => Abs(Get(r, "corpus_manifest_ref")) != Corpus(doc)
    case RawContentPresent =>
      || HasKey(r.members, "raw_publication_bytes") || HasKey(r.members, "raw_frontmatter_yaml")
      || HasKey(r.members, "raw_body_text")
    case MissingExclusion =>
      || !Excludes(r, "raw_body_text") || !Excludes(r, "raw_frontmatter_yaml")
      || !Excludes(r, "raw_publication_bytes")
    case _ => false
  }

  /** The code is recorded against an entry of the manifest. */
  predicate EntryDraws(c: Code, entry: Json, files: string -> ReceiptFile, doc: Json) {
    var id := Get(entry, "receipt_id");
    match c
    case FileMissing => GivenText(id) ==> files(id.s).Absent?
    case ParseError => GivenText(id) && !files(id.s).Absent? && !Opened(entry, files)
    case _ => Opened(entry, files) && ReceiptDraws(c, entry, files(id.s).value, doc)
  }

  ghost predicate SomeEntryDraws(c: Code, i: Inputs)
    requires BothRead(i)
  {
    var listed := Get(i.manifest.value, "emitted_receipts");
    listed.Arr? && exists e :: e in listed.items && e.Obj? && EntryDraws(c, e, i.files, i.runDoc.value)
  }

  // ----- the coverage -----

  ghost predicate PathEmitted(manifest: Json, p: string) {
    var listed := Get(manifest, "emitted_receipts");
    listed.Arr? && exists n :: 0 <= n < |listed.items| && listed.items[n].Obj?
                               && Get(listed.items[n], "rel_path") == Str(p)
  }

  /** A list holds its texts; a dict its keys, a text its characters. */
  predicate PathListed(v: Json, p: string) {
    || (v.Arr? && Str(p) in v.items)
    || (v.Obj? && HasKey(v.members, p))
    || (v.Str? && |p| == 1 && p[0] in v.s)
  }

  ghost predicate InSet(manifest: Json, c: Category, p: string) {
    match c
    case Emitted => PathEmitted(manifest, p)
    case SkippedDuplicate => PathListed(Get(manifest, "skipped_duplicate"), p)
    case SkippedNoParser => PathListed(Get(manifest, "skipped_no_parser"), p)
    case ProfileNotApplicable => PathListed(Get(manifest, "profile_not_applicable"), p)
  }

  ghost predicate InSomeSet(manifest: Json, p: string) { exists c :: InSet(manifest, c, p) }

  ghost predicate InTwoSets(manifest: Json, p: string) {
    exists c, d :: c != d && InSet(manifest, c, p) && InSet(manifest, d, p)
  }

  /** The code is recorded against a file occurrence. */
  ghost predicate OccurrenceDraws(c: Code, occ: Json, manifest: Json) {
    var path := Get(occ, "rel_path");
    occ.Obj? &&
    match c
    case NotAccounted => GivenText(path) ==> !InSomeSet(manifest, path.s)
    case SkipCategoryMalformed => GivenText(path) && InTwoSets(manifest, path.s)
    case DuplicateViolation =>
      GivenText(path) && Get(occ, "is_duplicate_content") == Bool(true) && InSet(manifest, Emitted, path.s)
    case NullParserViolation => GivenText(path) && Get(occ, "parser_id") == Null && InSet(manifest, Emitted, path.s)
    case _ => false
  }

  ghost predicate SomeOccurrenceDraws(c: Code, i: Inputs)
    requires BothRead(i)
  {
    var occs := Get(i.runDoc.value, "file_occurrences");
    occs.Arr? && exists n :: 0 <= n < |occs.items| && OccurrenceDraws(c, occs.items[n], i.manifest.value)
  }

  predicate TextList(v: Json) { v.Arr? && forall n :: 0 <= n < |v.items| ==> v.items[n].Str? }

  predicate SkipsMalformed(manifest: Json) {
    || !TextList(Get(manifest, "skipped_duplicate")) || !TextList(Get(manifest, "skipped_no_parser"))
    || !TextList(Get(manifest, "profile_not_applicable"))
  }

  /** When a code is recorded at all. */
  ghost predicate Draws(c: Code, i: Inputs) {
    || DocumentDraws(c, i)
    || (BothRead(i) && SomeEntryDraws(c, i))
    || (BothRead(i) && c == SkipCategoryMalformed && SkipsMalformed(i.manifest.value))
    || (BothRead(i) && SomeOccurrenceDraws(c, i))
  }

  // ----- the documents' findings -----

  lemma RunDocExactly(i: Inputs, c: Code)
    requires RunDocRead(i)
    ensures c in RunDocFindings(i.runDoc.value) <==>
      (c == RunSchemaMismatch || c == BoundaryViolation) && DocumentDraws(c, i)
  {
    hide Get, Abs, HasKey;
  }

  lemma LinkageExactly(i: Inputs, c: Code)
    requires BothRead(i)
    ensures c in LinkageFindings(i, i.runDoc.value, i.manifest.value) <==>
      && (c == ManifestSchemaMismatch || c == RunIdMismatch || c == PinMismatch || c == AuthorityMismatch)
      && DocumentDraws(c, i)
  {
    hide Get, Abs, HasKey;
  }

  lemma DocumentExactly(i: Inputs, c: Code)
    ensures !RunDocRead(i) ==> (DocumentDraws(c, i) <==> c == RunSchemaMismatch)
    ensures RunDocRead(i) && !BothRead(i) ==>
      (c in RunDocFindings(i.runDoc.value) + [ManifestSchemaMismatch] <==> DocumentDraws(c, i))
    ensures BothRead(i) ==>
      (c in RunDocFindings(i.runDoc.value) + LinkageFindings(i, i.runDoc.value, i.manifest.value)
       <==> DocumentDraws(c, i))
  {
    if RunDocRead(i) { RunDocExactly(i, c); }
    if BothRead(i) { LinkageExactly(i, c); }
    hide Get, Abs, Pin, RunDocFindings, LinkageFindings;
  }

  // ----- the receipts' findings -----

  lemma BindingExactly(protocol: bool, id: bool, subject: bool, binding: bool, path: bool, corpus: bool, c: Code)
    ensures c in BindingFindings(protocol, id, subject, binding, path, corpus) <==>
      match c
      case ProtocolMismatch => !protocol
      case ReceiptIdMismatch => !id
      case SubjectRefMismatch => !subject
      case SubjectBindingMismatch => !binding
      case RelPathMismatch => !path
      case CorpusRefMismatch => !corpus
      case _ => false
  {}

  lemma ContentExactly(r: Json, c: Code)
    requires r.Obj?
    ensures c in RawFindings(r) <==>
      c == RawContentPresent && (HasKey(r.members, "raw_publication_bytes") || HasKey(r.members, "raw_frontmatter_yaml")
                                 || HasKey(r.members, "raw_body_text"))
    ensures c in ExclusionFindings(r) <==>
      c == MissingExclusion && (!Excludes(r, "raw_body_text") || !Excludes(r, "raw_frontmatter_yaml")
                                || !Excludes(r, "raw_publication_bytes"))
  {
    hide Get, HasKey;
  }

  /** Whether each of the six references is as it must be. */
  lemma ReferencesExactly(entry: Json, r: Json, doc: Json)
    requires r.Obj?
    ensures ReceiptFindings(entry, r, CorpusRef(doc)) ==
      BindingFindings(!ReceiptDraws(ProtocolMismatch, entry, r, doc), !ReceiptDraws(ReceiptIdMismatch, entry, r, doc),
                      !ReceiptDraws(SubjectRefMismatch, entry, r, doc), !ReceiptDraws(SubjectBindingMismatch, entry, r, doc),
                      !ReceiptDraws(RelPathMismatch, entry, r, doc), !ReceiptDraws(CorpusRefMismatch, entry, r, doc))
      + RawFindings(r) + ExclusionFindings(r)
  {
    CorpusExactly(doc);
    hide Get, HasKey, Abs, CorpusRef, Corpus, BindingFindings, RawFindings, ExclusionFindings, Excludes;
  }

  lemma CorpusExactly(doc: Json)
    ensures Abs(CorpusRef(doc)) == Corpus(doc)
  {}

  lemma ReceiptExactly(entry: Json, r: Json, doc: Json, c: Code)
    requires r.Obj?
    ensures c in ReceiptFindings(entry, r, CorpusRef(doc)) <==> ReceiptDraws(c, entry, r, doc)
  {
    hide Get, HasKey, BindingFindings, RawFindings, ExclusionFindings, Excludes, ReceiptFindings, CorpusRef, Corpus,
         Mismatch;
    ReferencesExactly(entry, r, doc);
    BindingExactly(
      !ReceiptDraws(ProtocolMismatch, entry, r, doc), !ReceiptDraws(ReceiptIdMismatch, entry, r, doc),
      !ReceiptDraws(SubjectRefMismatch, entry, r, doc), !ReceiptDraws(SubjectBindingMismatch, entry, r, doc),
      !ReceiptDraws(RelPathMismatch, entry, r, doc), !ReceiptDraws(CorpusRefMismatch, entry, r, doc), c);
    ContentExactly(r, c);
  }

  lemma EntryExactly(entry: Json, files: string -> ReceiptFile, doc: Json, c: Code)
    ensures c in EntryFindings(entry, files, CorpusRef(doc)) <==> EntryDraws(c, entry, files, doc)
  {
    if Opened(entry, files) { ReceiptExactly(entry, files(Get(entry, "receipt_id").s).value, doc, c); }
    hide Get, ReceiptFindings, ReceiptDraws, CorpusRef;
  }

  lemma {:induction false} EntriesExactly(entries: seq<Json>, files: string -> ReceiptFile, doc: Json, c: Code)
    ensures c in EntriesFindings(entries, files, CorpusRef(doc)) <==>
      exists e :: e in entries && EntryDraws(c, e, files, doc)
  {
    hide EntryFindings, EntryDraws, CorpusRef;
    if entries != [] {
      var n := |entries| - 1;
      EntriesExactly(entries[..n], files, doc, c);
      EntryExactly(entries[n], files, doc, c);
      assert forall e :: e in entries <==> e in entries[..n] || e == entries[n];
    }
  }

  lemma ReceiptsExactly(i: Inputs, c: Code)
    requires BothRead(i)
    ensures c in ReceiptLoopFindings(i) <==> SomeEntryDraws(c, i)
  {
    EntriesExactly(Entries(i.manifest.value), i.files, i.runDoc.value, c);
    hide EntryDraws, Get, EntriesFindings, CorpusRef, Objects;
  }

  // ----- the coverage findings -----

  lemma TextsExactly(v: Json, p: string)
    ensures Texts(v).Some? ==> (p in Texts(v).value <==> PathListed(v, p))
  {
    match v
    case Str(s) =>
      if p in Texts(v).value { var c :| c in s && p == [c]; }
      if PathListed(v, p) { assert p == [p[0]]; }
    case Obj(ms) => KeysExactly(ms, p);
    case _ =>
  }

  lemma {:induction false} KeysExactly(ms: seq<Member>, k: string)
    ensures HasKey(ms, k) <==> exists m :: m in ms && m.key == k
  {
    if ms != [] {
      KeysExactly(ms[1..], k);
      assert ms[0] in ms;
      assert forall m :: m in ms <==> m == ms[0] || m in ms[1..];
    }
  }

  lemma EmittedExactly(manifest: Json, p: string)
    ensures p in EmittedPaths(Entries(manifest)) <==> PathEmitted(manifest, p)
  {
    hide Get;
    if PathEmitted(manifest, p) {
      var listed := Get(manifest, "emitted_receipts");
      var n :| 0 <= n < |listed.items| && listed.items[n].Obj? && Get(listed.items[n], "rel_path") == Str(p);
      assert listed.items[n] in Entries(manifest);
    }
  }

  lemma SetsExactly(manifest: Json, c: Category, p: string)
    requires SetsOf(manifest).Some?
    ensures p in SetsOf(manifest).value.Of(c) <==> InSet(manifest, c, p)
  {
    TextsExactly(Get(manifest, "skipped_duplicate"), p);
    TextsExactly(Get(manifest, "skipped_no_parser"), p);
    TextsExactly(Get(manifest, "profile_not_applicable"), p);
    EmittedExactly(manifest, p);
    hide Get, Texts, PathListed, PathEmitted, EmittedPaths, Entries;
  }

  lemma OccurrenceExactly(occ: Json, manifest: Json, c: Code)
    requires SetsOf(manifest).Some?
    ensures c in OccurrenceFindings(occ, SetsOf(manifest).value) <==> OccurrenceDraws(c, occ, manifest)
  {
    var sets := SetsOf(manifest).value;
    hide *;
    forall d, p ensures p in sets.Of(d) <==> InSet(manifest, d, p) { SetsExactly(manifest, d, p); }
    OccurrenceMeans(occ, sets, manifest, c);
  }

  lemma OccurrenceMeans(occ: Json, sets: Sets, manifest: Json, c: Code)
    requires forall d, p :: p in sets.Of(d) <==> InSet(manifest, d, p)
    ensures c in OccurrenceFindings(occ, sets) <==> OccurrenceDraws(c, occ, manifest)
  {
    if occ.Obj? && Usable(occ).Some? { CategoriesExactly(occ, sets, manifest); }
    hide Get, InSet, CategoriesOf, InSomeSet, InTwoSets;
  }

  lemma CategoriesExactly(occ: Json, sets: Sets, manifest: Json)
    requires occ.Obj? && Usable(occ).Some?
    requires forall d :: Usable(occ).value in sets.Of(d) <==> InSet(manifest, d, Usable(occ).value)
    ensures var p, cats := Usable(occ).value, CategoriesOf(Usable(occ).value, sets);
      && (cats != [] <==> InSomeSet(manifest, p)) && (|cats| > 1 <==> InTwoSets(manifest, p))
      && (Emitted in cats <==> InSet(manifest, Emitted, p))
  {
    CategoriesListed(occ, sets);
    var p, cats := Usable(occ).value, CategoriesOf(Usable(occ).value, sets);
    if |cats| > 1 { CategoriesDiffer(occ, sets); }
    hide Usable, CategoriesOf, InSet;
    assert forall c :: c in cats <==> InSet(manifest, c, p);
    if cats != [] { assert cats[0] in cats; }
    if |cats| > 1 { assert cats[0] in cats && cats[1] in cats; }
  }

  lemma {:induction false} OccurrencesExactly(occs: seq<Json>, manifest: Json, c: Code)
    requires SetsOf(manifest).Some?
    ensures c in CoverageFindings(occs, SetsOf(manifest).value) <==>
      exists n :: 0 <= n < |occs| && OccurrenceDraws(c, occs[n], manifest)
  {
    hide OccurrenceFindings, OccurrenceDraws, SetsOf;
    if occs != [] {
      var n := |occs| - 1;
      OccurrencesExactly(occs[..n], manifest, c);
      OccurrenceExactly(occs[n], manifest, c);
      assert forall m :: 0 <= m < n ==> occs[..n][m] == occs[m];
    }
  }

  lemma CoverageExactly(i: Inputs, c: Code)
    requires BothRead(i) && Finishes(i)
    ensures c in CoverageLoopFindings(i) <==> SomeOccurrenceDraws(c, i)
  {
    OccurrencesExactly(OccurrencesOf(i), i.manifest.value, c);
    hide Get, OccurrenceDraws, CoverageFindings, SetsOf;
  }

  lemma SkipsExactly(manifest: Json, c: Code)
    ensures c in SkipFindings(manifest) <==> c == SkipCategoryMalformed && SkipsMalformed(manifest)
    ensures SkipFindings(manifest) == [] <==> !SkipsMalformed(manifest)
  {
    hide Get;
  }

  // ----- the report -----

  /** A code is recorded exactly when its condition on the documents and the receipts holds. */
  lemma FoundExactly(i: Inputs, c: Code)
    requires Finishes(i)
    ensures c in AllFindings(i) <==> Draws(c, i)
  {
    DocumentExactly(i, c);
    if BothRead(i) {
      ReceiptsExactly(i, c);
      CoverageExactly(i, c);
      SkipsExactly(i.manifest.value, c);
    }
    hide RunDocFindings, LinkageFindings, ReceiptLoopFindings, SkipFindings, CoverageLoopFindings, DocumentDraws,
         SomeEntryDraws, SkipsMalformed, SomeOccurrenceDraws;
  }

  /** No value of the kind the source cannot iterate over. */
  predicate Iterable(v: Json) { (v.Int? ==> v.n == 0) && (v.Bool? ==> !v.b) }

  /** The report is finished exactly when no skip category is such a value. */
  lemma FinishesExactly(i: Inputs)
    ensures Finishes(i) <==>
      (BothRead(i) ==>
         && Iterable(Get(i.manifest.value, "skipped_duplicate")) && Iterable(Get(i.manifest.value, "skipped_no_parser"))
         && Iterable(Get(i.manifest.value, "profile_not_applicable")))
  {
    hide Get;
  }

  ghost predicate SomeEntry(i: Inputs)
    requires BothRead(i)
  {
    var listed := Get(i.manifest.value, "emitted_receipts");
    listed.Arr? && exists n :: 0 <= n < |listed.items| && listed.items[n].Obj?
  }

  predicate SomeOccurrence(i: Inputs)
    requires BothRead(i)
  {
    var occs := Get(i.runDoc.value, "file_occurrences");
    occs.Arr? && |occs.items| > 0
  }

  /** The conclusion of a code: negative when it is recorded. */
  ghost function Stands(ok: bool): Conclusion { if ok then True else False }

  /** Each of the ten conclusions on the receipts. */
  lemma ReceiptConclusionExactly(i: Inputs, c: Code)
    requires Finishes(i) && ReceiptCode(c)
    ensures ReceiptConclusion(i, c) ==
      if !BothRead(i) then False else if !SomeEntry(i) then NotEvaluated else Stands(!Draws(c, i))
  {
    if BothRead(i) {
      ReceiptsExactly(i, c);
      CoverageCodes(i, c);
      EntriesSome(i);
    }
    hide ReceiptLoopFindings, SomeEntryDraws, SomeOccurrenceDraws, SkipsMalformed, Entries, SomeEntry, Get;
  }

  lemma CoverageCodes(i: Inputs, c: Code)
    requires BothRead(i) && ReceiptCode(c)
    ensures !DocumentDraws(c, i) && !SomeOccurrenceDraws(c, i)
  {}

  lemma EntriesSome(i: Inputs)
    requires BothRead(i)
    ensures Entries(i.manifest.value) != [] <==> SomeEntry(i)
  {
    hide Get;
    var listed, entries := Get(i.manifest.value, "emitted_receipts"), Entries(i.manifest.value);
    if entries != [] {
      assert entries[0] in entries;
      var n :| 0 <= n < |listed.items| && listed.items[n] == entries[0];
    }
    if SomeEntry(i) {
      var n :| 0 <= n < |listed.items| && listed.items[n].Obj?;
      assert listed.items[n] in entries;
    }
  }

  lemma OwnCodes(i: Inputs)
    requires BothRead(i) && Finishes(i)
    ensures var doc, manifest := i.runDoc.value, i.manifest.value;
      && (RunSchemaFindings(doc) == [] <==> !DocumentDraws(RunSchemaMismatch, i))
      && (BoundaryFindings(doc) == [] <==> !DocumentDraws(BoundaryViolation, i))
      && (ManifestFindings(manifest) == [] <==> !DocumentDraws(ManifestSchemaMismatch, i))
      && (RunIdFindings(doc, manifest) == [] <==> !DocumentDraws(RunIdMismatch, i))
      && (PinFindings(i.profileDigest, manifest) == [] <==> !DocumentDraws(PinMismatch, i))
      && (AuthorityFindings(manifest) == [] <==> !DocumentDraws(AuthorityMismatch, i))
  {
    hide Get, Abs, HasKey;
  }

  predicate OfDocuments(c: Code) {
    c.RunSchemaMismatch? || c.BoundaryViolation? || c.ManifestSchemaMismatch? || c.RunIdMismatch? || c.PinMismatch?
    || c.AuthorityMismatch?
  }

  predicate OfCoverage(c: Code) {
    c.NotAccounted? || c.SkipCategoryMalformed? || c.DuplicateViolation? || c.NullParserViolation?
  }

  /** A code of the documents comes from no receipt and no occurrence, a posture's from no receipt. */
  lemma Elsewhere(i: Inputs, c: Code)
    requires BothRead(i)
    ensures OfDocuments(c) ==> !SomeEntryDraws(c, i) && !SomeOccurrenceDraws(c, i)
    ensures OfCoverage(c) ==> !DocumentDraws(c, i) && !SomeEntryDraws(c, i)
  {}

  /** The nine other conclusions. */
  lemma ConclusionsExactly(i: Inputs)
    requires Finishes(i)
    ensures !RunDocRead(i) ==>
      ConclusionsOf(i) == Conclusions(False, False, False, False, False, False, False, False, False)
    ensures RunDocRead(i) ==>
      && ConclusionsOf(i).runDocSchema == Stands(!Draws(RunSchemaMismatch, i))
      && ConclusionsOf(i).boundaryDeclarations == Stands(!Draws(BoundaryViolation, i))
    ensures RunDocRead(i) && !BothRead(i) ==>
      ConclusionsOf(i) == Conclusions(ConclusionsOf(i).runDocSchema, ConclusionsOf(i).boundaryDeclarations,
                                      False, False, False, False, False, False, False)
    ensures BothRead(i) ==>
      && ConclusionsOf(i).receiptSetManifestSchema == Stands(!Draws(ManifestSchemaMismatch, i))
      && ConclusionsOf(i).runIdLinkage == Stands(!Draws(RunIdMismatch, i))
      && ConclusionsOf(i).profileManifestPin == Stands(!Draws(PinMismatch, i))
      && ConclusionsOf(i).profileManifestAuthority == Stands(!Draws(AuthorityMismatch, i))
    ensures BothRead(i) ==>
      && ConclusionsOf(i).occurrenceAccounting
         == (if SomeOccurrence(i) then Stands(!Draws(NotAccounted, i) && !Draws(SkipCategoryMalformed, i)) else NotEvaluated)
      && ConclusionsOf(i).duplicatePosture
         == (if SomeOccurrence(i) then Stands(!Draws(DuplicateViolation, i)) else NotEvaluated)
      && ConclusionsOf(i).nullParserPosture
         == (if SomeOccurrence(i) then Stands(!Draws(NullParserViolation, i)) else NotEvaluated)
  {
    if BothRead(i) {
      hide *;
      CoreConclusions(i);
      CoverageConclusions(i);
    } else if RunDocRead(i) {
      hide Get;
    }
  }

  lemma CoreConclusions(i: Inputs)
    requires BothRead(i) && Finishes(i)
    ensures RunDocRead(i)
    ensures ConclusionsOf(i).runDocSchema == Stands(!Draws(RunSchemaMismatch, i))
    ensures ConclusionsOf(i).boundaryDeclarations == Stands(!Draws(BoundaryViolation, i))
    ensures ConclusionsOf(i).receiptSetManifestSchema == Stands(!Draws(ManifestSchemaMismatch, i))
    ensures ConclusionsOf(i).runIdLinkage == Stands(!Draws(RunIdMismatch, i))
    ensures ConclusionsOf(i).profileManifestPin == Stands(!Draws(PinMismatch, i))
    ensures ConclusionsOf(i).profileManifestAuthority == Stands(!Draws(AuthorityMismatch, i))
  {
    OwnCodes(i);
    Elsewhere(i, RunSchemaMismatch);
    Elsewhere(i, BoundaryViolation);
    Elsewhere(i, ManifestSchemaMismatch);
    Elsewhere(i, RunIdMismatch);
    Elsewhere(i, PinMismatch);
    Elsewhere(i, AuthorityMismatch);
    hide RunSchemaFindings, BoundaryFindings, ManifestFindings, RunIdFindings, PinFindings, AuthorityFindings,
         DocumentDraws, SomeEntryDraws, SomeOccurrenceDraws, SkipsMalformed, AccountingConclusion, PostureConclusion;
  }

  lemma CoverageConclusions(i: Inputs)
    requires BothRead(i) && Finishes(i)
    ensures ConclusionsOf(i).occurrenceAccounting
         == if SomeOccurrence(i) then Stands(!Draws(NotAccounted, i) && !Draws(SkipCategoryMalformed, i)) else NotEvaluated
    ensures ConclusionsOf(i).duplicatePosture
         == if SomeOccurrence(i) then Stands(!Draws(DuplicateViolation, i)) else NotEvaluated
    ensures ConclusionsOf(i).nullParserPosture
         == if SomeOccurrence(i) then Stands(!Draws(NullParserViolation, i)) else NotEvaluated
  {
    CoverageExactly(i, NotAccounted);
    CoverageExactly(i, SkipCategoryMalformed);
    CoverageExactly(i, DuplicateViolation);
    CoverageExactly(i, NullParserViolation);
    SkipsExactly(i.manifest.value, SkipCategoryMalformed);
    Elsewhere(i, NotAccounted);
    Elsewhere(i, SkipCategoryMalformed);
    Elsewhere(i, DuplicateViolation);
    Elsewhere(i, NullParserViolation);
    hide Get, RunSchemaFindings, BoundaryFindings, ManifestFindings, RunIdFindings, PinFindings, AuthorityFindings,
         DocumentDraws, SomeEntryDraws, SomeOccurrenceDraws, SkipsMalformed, CoverageLoopFindings, SkipFindings;
  }

  /** A run passes exactly when both documents are read and no code is recorded, save that without
      occurrences a malformed skip category does not count. */
  lemma PassedMeans(i: Inputs)
    requires Finishes(i)
    ensures AllPassed(i) <==>
      BothRead(i) && forall c :: Draws(c, i) ==> c == SkipCategoryMalformed && !SomeOccurrence(i)
  {
    if BothRead(i) {
      hide AllFindings, Draws, AllPassed, Get, OccurrencesOf;
      forall c ensures c in AllFindings(i) <==> Draws(c, i) { FoundExactly(i, c); }
      PassedCodes(i);
    }
  }

  lemma DocumentCodes(i: Inputs)
    requires BothRead(i)
    ensures forall c :: c in RunDocFindings(i.runDoc.value) + LinkageFindings(i, i.runDoc.value, i.manifest.value) ==>
      OfDocuments(c)
  {
    hide Get, Equal, DeclaredPin;
  }

  lemma SkipCodes(manifest: Json)
    ensures forall c :: c in SkipFindings(manifest) ==> c == SkipCategoryMalformed
  {
    hide Get, ListOfTexts, SkipValue;
  }

  /** Among the findings before the coverage none says that a skip category is malformed. */
  lemma OnlySkips(before: seq<Code>, skips: seq<Code>, coverage: seq<Code>)
    requires SkipCategoryMalformed !in before
    requires forall c :: c in skips ==> c == SkipCategoryMalformed
    ensures (forall c :: c in before + skips + coverage ==> c == SkipCategoryMalformed) <==>
      before == [] && forall c :: c in coverage ==> c == SkipCategoryMalformed
    ensures (forall c :: c !in before + skips + coverage) <==> before == [] && skips == [] && coverage == []
  {
    var all := before + skips + coverage;
    assert forall c :: c in all <==> c in before || c in skips || c in coverage;
    if before != [] { assert before[0] in before; }
    if skips != [] { assert skips[0] in skips; }
    if coverage != [] { assert coverage[0] in coverage; }
  }

  lemma PassedCodes(i: Inputs)
    requires BothRead(i) && Finishes(i)
    ensures AllPassed(i) <==> forall c :: c in AllFindings(i) ==> c == SkipCategoryMalformed && !SomeOccurrence(i)
  {
    var doc, manifest := i.runDoc.value, i.manifest.value;
    EntriesCodes(Entries(manifest), i.files, CorpusRef(doc));
    DocumentCodes(i);
    SkipCodes(manifest);
    hide Get, RunDocFindings, LinkageFindings, EntriesFindings, SkipFindings, Entries, CorpusRef;
    var before := RunDocFindings(doc) + LinkageFindings(i, doc, manifest) + ReceiptLoopFindings(i);
    OnlySkips(before, SkipFindings(manifest), CoverageLoopFindings(i));
    assert before == [] <==> RunDocFindings(doc) == [] && LinkageFindings(i, doc, manifest) == []
                             && ReceiptLoopFindings(i) == [];
    assert AllFindings(i) == before + SkipFindings(manifest) + CoverageLoopFindings(i);
    if SomeOccurrence(i) {
      assert AllPassed(i) <==> before == [] && SkipFindings(manifest) == [] && CoverageLoopFindings(i) == [];
    } else {
      assert AllPassed(i) <==> before == [];
    }
  }
}
