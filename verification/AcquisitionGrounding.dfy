/** `acquisition_grounding.py`, `verify`: the binding of grounding entries to fields and the
    recomputation of the spans they name. */
module AcquisitionGrounding {
  import opened JsonValue
  import opened Sorting
  import opened VisibleText

  const EXTRACTION_PROFILE_ID := "acquisition.html-visible-text.v0.1"

  // ----- which entry belongs to which field -----

  /** Python counts True as 1 and False as 0, in comparisons and as an index. */
  function AsInt(j: Json): Option<int> {
    match j case Int(n) => Some(n) case Bool(b) => Some(if b then 1 else 0) case _ => None
  }

  predicate IntLe(a: int, b: int) { a <= b }

  function Range(n: nat): (r: seq<int>)
    ensures |r| == n && forall i :: 0 <= i < n ==> r[i] == i
  {
    seq(n, i => i)
  }

  function IndexJson(fg: Json): Json { Get(fg, "field_index") }

  function Indexes(fgs: seq<Json>): (r: seq<int>)
    requires forall i :: 0 <= i < |fgs| ==> AsInt(IndexJson(fgs[i])).Some?
    ensures |r| == |fgs| && forall i :: 0 <= i < |fgs| ==> r[i] == AsInt(IndexJson(fgs[i])).value
  {
    seq(|fgs|, i requires 0 <= i < |fgs| => AsInt(IndexJson(fgs[i])).value)
  }

  predicate AllNumbers(fgs: seq<Json>) { forall i :: 0 <= i < |fgs| ==> AsInt(IndexJson(fgs[i])).Some? }

  /** Sorting raises a type error on values without a common order. */
  predicate Unsortable(fgs: seq<Json>) {
    |fgs| > 1 && !AllNumbers(fgs) && !(forall i :: 0 <= i < |fgs| ==> IndexJson(fgs[i]).Str?)
  }

  predicate Shaped(fields: Json, grounding: Json) {
    && fields.Arr? && grounding.Arr? && |grounding.items| == |fields.items|
    && forall i :: 0 <= i < |grounding.items| ==> grounding.items[i].Obj?
  }

  /** `binding_ok`; None is the type error. */
  function BindingOk(fields: Json, grounding: Json): Option<bool> {
    if !Shaped(fields, grounding) then Some(false)
    else
      var fgs := grounding.items;
      if Unsortable(fgs) then None
      else Some(AllNumbers(fgs) && Sort(Indexes(fgs), IntLe) == Range(|fields.items|))
  }

  lemma SortedRange(xs: seq<int>, n: nat)
    ensures Sort(xs, IntLe) == Range(n) <==> multiset(xs) == multiset(Range(n))
  {
    SortForgetsOrder(xs, Range(n), IntLe);
    SortOrdered(Range(n), IntLe);
    OrderedUnique(Range(n), Sort(Range(n), IntLe), IntLe);
    assert multiset(Sort(xs, IntLe)) == multiset(xs);
  }

  lemma RangeOnce(n: nat, x: int)
    ensures multiset(Range(n))[x] == if 0 <= x < n then 1 else 0
  {
    NoRepeatsCount(Range(n));
    if 0 <= x < n {
      assert Range(n)[x] == x;
      assert x in multiset(Range(n));
    } else {
      assert x !in Range(n);
    }
  }

  ghost predicate Used(fgs: seq<Json>, k: int) {
    exists i :: 0 <= i < |fgs| && AsInt(IndexJson(fgs[i])) == Some(k)
  }

  /** The entries are a permutation of the fields: each field has exactly one entry. */
  ghost predicate Bijective(fgs: seq<Json>, n: nat) {
    && |fgs| == n
    && (forall i :: 0 <= i < n ==> AsInt(IndexJson(fgs[i])).Some? && 0 <= AsInt(IndexJson(fgs[i])).value < n)
    && (forall i, j :: 0 <= i < j < n ==> AsInt(IndexJson(fgs[i])) != AsInt(IndexJson(fgs[j])))
    && (forall k :: 0 <= k < n ==> Used(fgs, k))
  }

  lemma BindingExactly(fields: Json, grounding: Json)
    requires Shaped(fields, grounding)
    ensures BindingOk(fields, grounding) == Some(true) <==> Bijective(grounding.items, |fields.items|)
  {
    var fgs, n := grounding.items, |fields.items|;
    if Bijective(fgs, n) { BijectivePermutation(fgs, n); }
    if AllNumbers(fgs) {
      SortedRange(Indexes(fgs), n);
      if BindingOk(fields, grounding) == Some(true) { PermutationBijective(fgs, n, Indexes(fgs)); }
    }
  }

  lemma BijectivePermutation(fgs: seq<Json>, n: nat)
    requires Bijective(fgs, n)
    ensures AllNumbers(fgs) && multiset(Indexes(fgs)) == multiset(Range(n))
  {
    var xs := Indexes(fgs);
    NoRepeatsCount(xs);
    forall x ensures multiset(xs)[x] == multiset(Range(n))[x] {
      RangeOnce(n, x);
      if 0 <= x < n {
        assert Used(fgs, x);
        var i :| 0 <= i < n && AsInt(IndexJson(fgs[i])) == Some(x);
        assert xs[i] == x;
        assert x in multiset(xs);
      } else {
        assert x !in xs;
      }
    }
  }

  lemma PermutationBijective(fgs: seq<Json>, n: nat, xs: seq<int>)
    requires |fgs| == n && AllNumbers(fgs) && xs == Indexes(fgs)
    requires multiset(xs) == multiset(Range(n))
    ensures Bijective(fgs, n)
  {
    NoRepeatsCount(xs);
    forall x ensures multiset(Range(n))[x] == if 0 <= x < n then 1 else 0 { RangeOnce(n, x); }
    forall i | 0 <= i < n ensures 0 <= xs[i] < n { assert xs[i] in multiset(xs); }
    forall k | 0 <= k < n ensures Used(fgs, k) {
      assert k in multiset(xs);
      var i :| 0 <= i < |xs| && xs[i] == k;
    }
    forall i, j | 0 <= i < j < n ensures AsInt(IndexJson(fgs[i])) != AsInt(IndexJson(fgs[j])) {
      assert xs[i] != xs[j];
    }
  }

  // ----- one grounding entry -----

  datatype Code =
    | KindInvalid | AbstractiveCarriesAnchor | AnchorMissing | AnchorDigestMismatch
    | AnchorProfileUnknown | SpanOutOfRange | SpanTextMismatch

  function Anchor(fg: Json): Json { Get(fg, "verified_anchor") }

  predicate SpanInRange(start: Json, end: Json, length: nat) {
    start.Int? && end.Int? && 0 <= start.n <= end.n <= length
  }

  function ProposedValue(field: Json): Json { Get(field, "proposed_value") }

  predicate SpanMatches(projection: string, anchor: Json, value: Json) {
    var start, end := Get(anchor, "start"), Get(anchor, "end");
    && SpanInRange(start, end, |projection|) && value.Str?
    && Normalize(projection[start.n..end.n]) == Normalize(value.s)
  }

  predicate Extractive(fg: Json) { Get(fg, "grounding_kind") == Str("extractive") }

  predicate Abstractive(fg: Json) { Get(fg, "grounding_kind") == Str("abstractive") }

  predicate ProfilePinned(anchor: Json) { Get(anchor, "extraction_profile") == Str(EXTRACTION_PROFILE_ID) }

  predicate SameArtifact(anchor: Json, claimed: Json) { Abs(Get(anchor, "artifact_digest")) == Abs(claimed) }

  /** The entry proves its location: an anchor into the captured artifact under the pinned profile,
      whose span of the projection has the words of the proposed value. */
  predicate Grounded(fg: Json, field: Json, claimed: Json, projection: string) {
    var anchor := Anchor(fg);
    && anchor.Obj? && SameArtifact(anchor, claimed)
    && ProfilePinned(anchor)
    && SpanMatches(projection, anchor, ProposedValue(field))
  }

  function IdentityFindings(anchor: Json, claimed: Json): seq<Code> {
    (if !SameArtifact(anchor, claimed) then [AnchorDigestMismatch] else [])
    + (if !ProfilePinned(anchor) then [AnchorProfileUnknown] else [])
  }

  function SpanFindings(projection: string, anchor: Json, value: Json): seq<Code> {
    if !SpanInRange(Get(anchor, "start"), Get(anchor, "end"), |projection|) then [SpanOutOfRange]
    else if !SpanMatches(projection, anchor, value) then [SpanTextMismatch] else []
  }

  /** What one entry adds to the findings. */
  function FindingsOf(fg: Json, field: Json, claimed: Json, projection: string): seq<Code> {
    var anchor := Anchor(fg);
    if Abstractive(fg) then if anchor != Null then [AbstractiveCarriesAnchor] else []
    else if !Extractive(fg) then [KindInvalid]
    else if !anchor.Obj? then [AnchorMissing]
    else IdentityFindings(anchor, claimed) + SpanFindings(projection, anchor, ProposedValue(field))
  }

  predicate ExtractiveOk(fg: Json, field: Json, claimed: Json, projection: string) {
    Abstractive(fg) || (Extractive(fg) && Grounded(fg, field, claimed, projection))
  }

  predicate AbstractiveOk(fg: Json) {
    Extractive(fg) || (Abstractive(fg) && Anchor(fg) == Null)
  }

  /** An anchor is counted when its span matches, whatever else is wrong with it. */
  predicate Recomputed(fg: Json, field: Json, projection: string) {
    var anchor := Anchor(fg);
    Extractive(fg) && anchor.Obj? && SpanMatches(projection, anchor, ProposedValue(field))
  }

  // ----- the loop over the entries -----

  function FieldFor(fg: Json, fields: seq<Json>): Json {
    var k := AsInt(IndexJson(fg));
    if k.Some? && 0 <= k.value < |fields| then fields[k.value] else Null
  }

  function LoopFindings(fgs: seq<Json>, fields: seq<Json>, claimed: Json, projection: string): seq<Code> {
    if fgs == [] then []
    else
      var n := |fgs| - 1;
      LoopFindings(fgs[..n], fields, claimed, projection)
      + FindingsOf(fgs[n], FieldFor(fgs[n], fields), claimed, projection)
  }

  function AnchorCount(fgs: seq<Json>, fields: seq<Json>, projection: string): nat {
    if fgs == [] then 0
    else
      var n := |fgs| - 1;
      AnchorCount(fgs[..n], fields, projection)
      + if Recomputed(fgs[n], FieldFor(fgs[n], fields), projection) then 1 else 0
  }

  datatype Grounding = Grounding(extractiveOk: bool, abstractiveOk: bool, anchors: nat, findings: seq<Code>)

  predicate AllExtractiveOk(fgs: seq<Json>, fields: seq<Json>, claimed: Json, projection: string) {
    fgs == [] ||
    var n := |fgs| - 1;
    (AllExtractiveOk(fgs[..n], fields, claimed, projection)
     && ExtractiveOk(fgs[n], FieldFor(fgs[n], fields), claimed, projection))
  }

  predicate AllAbstractiveOk(fgs: seq<Json>) {
    fgs == [] || (AllAbstractiveOk(fgs[..|fgs| - 1]) && AbstractiveOk(fgs[|fgs| - 1]))
  }

  method CheckEntries(fgs: seq<Json>, fields: seq<Json>, claimed: Json, projection: string)
    returns (r: Grounding)
    requires Bijective(fgs, |fields|)
    ensures r.extractiveOk == AllExtractiveOk(fgs, fields, claimed, projection)
    ensures r.abstractiveOk == AllAbstractiveOk(fgs)
    ensures r.anchors == AnchorCount(fgs, fields, projection)
    ensures r.findings == LoopFindings(fgs, fields, claimed, projection)
  {
    hide ExtractiveOk, AbstractiveOk, Recomputed, FindingsOf, Bijective, FieldFor;
    var extractiveOk, abstractiveOk, anchors := true, true, 0;
    var findings: seq<Code> := [];
    assert fgs[..0] == [];
    for i := 0 to |fgs|
      invariant extractiveOk == AllExtractiveOk(fgs[..i], fields, claimed, projection)
      invariant abstractiveOk == AllAbstractiveOk(fgs[..i])
      invariant anchors == AnchorCount(fgs[..i], fields, projection)
      invariant findings == LoopFindings(fgs[..i], fields, claimed, projection)
    {
      assert fgs[..i + 1][..i] == fgs[..i];
      IndexInRange(fgs, fields, i);
      var one := CheckEntry(fgs[i], fields[AsInt(IndexJson(fgs[i])).value], claimed, projection);
      extractiveOk := extractiveOk && one.extractiveOk;
      abstractiveOk := abstractiveOk && one.abstractiveOk;
      anchors := anchors + one.anchors;
      findings := findings + one.findings;
    }
    assert fgs[..|fgs|] == fgs;
    r := Grounding(extractiveOk, abstractiveOk, anchors, findings);
  }

  lemma IndexInRange(fgs: seq<Json>, fields: seq<Json>, i: nat)
    requires Bijective(fgs, |fields|) && i < |fgs|
    ensures AsInt(IndexJson(fgs[i])).Some? && 0 <= AsInt(IndexJson(fgs[i])).value < |fields|
    ensures FieldFor(fgs[i], fields) == fields[AsInt(IndexJson(fgs[i])).value]
  {}

  lemma SpanFindingsExplain(projection: string, anchor: Json, value: Json)
    ensures SpanFindings(projection, anchor, value) == [] <==> SpanMatches(projection, anchor, value)
  {
    hide Normalize, Get;
  }

  function EntryVerdict(fg: Json, field: Json, claimed: Json, projection: string): Grounding {
    Grounding(ExtractiveOk(fg, field, claimed, projection), AbstractiveOk(fg),
              if Recomputed(fg, field, projection) then 1 else 0, FindingsOf(fg, field, claimed, projection))
  }

  /** One round of the loop, with the flags it clears and what it adds. */
  method CheckEntry(fg: Json, field: Json, claimed: Json, projection: string) returns (r: Grounding)
    ensures r == EntryVerdict(fg, field, claimed, projection)
  {
    KindsDiffer(fg);
    if Extractive(fg) {
      hide EntryVerdict;
      r := CheckExtractive(fg, field, claimed, projection);
    } else {
      hide Extractive, Abstractive, Grounded, Anchor, IdentityFindings, SpanFindings, SpanMatches, ProposedValue;
      if !Abstractive(fg) { return Grounding(false, false, 0, [KindInvalid]); }
      if Anchor(fg) != Null { return Grounding(true, false, 0, [AbstractiveCarriesAnchor]); }
      return Grounding(true, true, 0, []);
    }
  }

  method CheckExtractive(fg: Json, field: Json, claimed: Json, projection: string) returns (r: Grounding)
    requires Extractive(fg)
    ensures r == EntryVerdict(fg, field, claimed, projection)
  {
    hide Anchor, Abstractive, Extractive, ProfilePinned, SameArtifact, ProposedValue, SpanMatches, SpanFindings,
         IdentityFindings;
    KindsDiffer(fg);
    var anchor := Anchor(fg);
    SpanFindingsExplain(projection, anchor, ProposedValue(field));
    if !anchor.Obj? { return Grounding(false, true, 0, [AnchorMissing]); }
    var ok, findings := CheckIdentity(anchor, claimed);
    var span := CheckSpan(anchor, ProposedValue(field), projection);
    return Grounding(ok && span == [], true, if span == [] then 1 else 0, findings + span);
  }

  /** An anchor may not point at another artifact or profile. */
  method CheckIdentity(anchor: Json, claimed: Json) returns (ok: bool, findings: seq<Code>)
    ensures ok == (SameArtifact(anchor, claimed) && ProfilePinned(anchor))
    ensures findings == IdentityFindings(anchor, claimed)
  {
    hide SameArtifact, ProfilePinned;
    ok, findings := true, [];
    if !SameArtifact(anchor, claimed) { ok, findings := false, [AnchorDigestMismatch]; }
    if !ProfilePinned(anchor) { ok, findings := false, findings + [AnchorProfileUnknown]; }
  }

  /** The span must lie in the projection and hold the proposed words; nothing is searched for. */
  method CheckSpan(anchor: Json, value: Json, projection: string) returns (findings: seq<Code>)
    ensures findings == SpanFindings(projection, anchor, value)
  {
    hide Get, Normalize;
    var start, end := Get(anchor, "start"), Get(anchor, "end");
    if !start.Int? || !end.Int? || start.n < 0 || end.n < start.n || end.n > |projection| || start.n > |projection| {
      return [SpanOutOfRange];
    }
    if !value.Str? || Normalize(projection[start.n..end.n]) != Normalize(value.s) { return [SpanTextMismatch]; }
    return [];
  }

  lemma KindsDiffer(fg: Json)
    ensures !(Abstractive(fg) && Extractive(fg))
  {
    assert "abstractive"[0] != "extractive"[0];
  }

  // ----- the conclusions -----

  datatype Mark = Pass | Fail | NotEvaluated

  datatype Conclusions = Conclusions(binding: Mark, extractive: Mark, abstractive: Mark, anchors: nat, findings: seq<Code>)

  /** The part of `verify` that judges the fields; None is the type error of sorting the indexes. */
  method VerifyFields(envelope: Json, events: seq<Event>) returns (r: Option<Conclusions>)
    ensures var fields, grounding := Get(Get(envelope, "content_proposal"), "fields"), Get(envelope, "field_grounding");
      && (r.None? <==> BindingOk(fields, grounding).None?)
      && (r.Some? ==> (r.value.binding == Pass <==> BindingOk(fields, grounding) == Some(true)))
      && (r.Some? && r.value.binding != Pass ==> r == Some(Conclusions(Fail, NotEvaluated, NotEvaluated, 0, [])))
      && (r.Some? && r.value.binding == Pass ==>
          && Bijective(grounding.items, |fields.items|)
          && (r.value.extractive == Pass <==>
              AllExtractiveOk(grounding.items, fields.items, Get(envelope, "artifact_digest"), Project(events)))
          && (r.value.abstractive == Pass <==> AllAbstractiveOk(grounding.items))
          && r.value.anchors == AnchorCount(grounding.items, fields.items, Project(events))
          && r.value.findings
             == LoopFindings(grounding.items, fields.items, Get(envelope, "artifact_digest"), Project(events)))
  {
    var projection := ProjectHtmlVisibleText(events);
    var fields, grounding := Get(Get(envelope, "content_proposal"), "fields"), Get(envelope, "field_grounding");
    hide Get, Project;
    var binding := BindingOk(fields, grounding);
    if binding.None? { return None; }
    if !binding.value { return Some(Conclusions(Fail, NotEvaluated, NotEvaluated, 0, [])); }
    BindingExactly(fields, grounding);
    var g := CheckEntries(grounding.items, fields.items, Get(envelope, "artifact_digest"), projection);
    return Some(Conclusions(Pass, if g.extractiveOk then Pass else Fail, if g.abstractiveOk then Pass else Fail,
                            g.anchors, g.findings));
  }

  ghost predicate OnlyEntryFor(fgs: seq<Json>, i: nat, k: nat)
    requires i < |fgs|
  {
    forall j :: 0 <= j < |fgs| ==> (AsInt(IndexJson(fgs[j])) == Some(k) <==> j == i)
  }

  /** The entry is extractive and its anchor names the captured artifact, the pinned profile and a
      slice of the projection with the words of the value; or it is abstractive and has no anchor. */
  predicate Accounted(fg: Json, field: Json, claimed: Json, projection: string) {
    var anchor, value := Get(fg, "verified_anchor"), Get(field, "proposed_value");
    if Get(fg, "grounding_kind") == Str("extractive") then
      var start, end := Get(anchor, "start"), Get(anchor, "end");
      && anchor.Obj? && Abs(Get(anchor, "artifact_digest")) == Abs(claimed)
      && Get(anchor, "extraction_profile") == Str(EXTRACTION_PROFILE_ID)
      && start.Int? && end.Int? && 0 <= start.n <= end.n <= |projection|
      && value.Str? && Words(projection[start.n..end.n]) == Words(value.s)
    else Get(fg, "grounding_kind") == Str("abstractive") && anchor == Null
  }

  /** When the binding, the anchors and the typing pass, every field is accounted for: its one entry
      is abstractive without an anchor, or its anchor proves its value. */
  lemma EveryFieldAccounted(fgs: seq<Json>, fields: seq<Json>, claimed: Json, projection: string, k: nat)
    requires Bijective(fgs, |fields|) && k < |fields|
    requires AllExtractiveOk(fgs, fields, claimed, projection) && AllAbstractiveOk(fgs)
    ensures exists i :: 0 <= i < |fgs| && OnlyEntryFor(fgs, i, k) && Accounted(fgs[i], fields[k], claimed, projection)
  {
    hide ExtractiveOk, AbstractiveOk, Accounted;
    assert Used(fgs, k);
    var i :| 0 <= i < |fgs| && AsInt(IndexJson(fgs[i])) == Some(k);
    assert FieldFor(fgs[i], fields) == fields[k];
    EntryOk(fgs, fields, claimed, projection, i);
    EntryAccounted(fgs[i], fields[k], claimed, projection);
    assert OnlyEntryFor(fgs, i, k);
  }

  lemma {:induction false} EntryOk(fgs: seq<Json>, fields: seq<Json>, claimed: Json, projection: string, i: nat)
    requires i < |fgs| && AllExtractiveOk(fgs, fields, claimed, projection) && AllAbstractiveOk(fgs)
    ensures ExtractiveOk(fgs[i], FieldFor(fgs[i], fields), claimed, projection) && AbstractiveOk(fgs[i])
  {
    hide ExtractiveOk, AbstractiveOk, FieldFor;
    if i < |fgs| - 1 { EntryOk(fgs[..|fgs| - 1], fields, claimed, projection, i); }
  }

  lemma EntryAccounted(fg: Json, field: Json, claimed: Json, projection: string)
    requires ExtractiveOk(fg, field, claimed, projection) && AbstractiveOk(fg)
    ensures Accounted(fg, field, claimed, projection)
  {
    KindsDiffer(fg);
    hide Get, Normalize, Words, Abs;
    if Extractive(fg) {
      var anchor, value := Anchor(fg), ProposedValue(field);
      NormalizeEqual(projection[Get(anchor, "start").n..Get(anchor, "end").n], value.s);
    }
  }

  /** No finding is recorded exactly when both conclusions pass. */
  lemma {:induction false} FindingsExplain(fgs: seq<Json>, fields: seq<Json>, claimed: Json, projection: string)
    ensures LoopFindings(fgs, fields, claimed, projection) == []
       <==> AllExtractiveOk(fgs, fields, claimed, projection) && AllAbstractiveOk(fgs)
  {
    hide ExtractiveOk, AbstractiveOk, FieldFor, FindingsOf;
    if fgs != [] {
      var n := |fgs| - 1;
      FindingsExplain(fgs[..n], fields, claimed, projection);
      EntryFindings(fgs[n], FieldFor(fgs[n], fields), claimed, projection);
    }
  }

  lemma EntryFindings(fg: Json, field: Json, claimed: Json, projection: string)
    ensures FindingsOf(fg, field, claimed, projection) == [] <==>
      ExtractiveOk(fg, field, claimed, projection) && AbstractiveOk(fg)
  {
    KindsDiffer(fg);
    SpanFindingsExplain(projection, Anchor(fg), ProposedValue(field));
    hide Anchor, Abstractive, Extractive, ProfilePinned, SameArtifact, ProposedValue, SpanMatches, SpanFindings;
  }
}
