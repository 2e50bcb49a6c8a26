/** `acquisition_grounding.py`, `verify`: what the judgement of the fields says, told by the members of
    the envelope alone. */
module GroundingFindings {
  import opened JsonValue
  import opened VisibleText
  import opened AcquisitionGrounding

  // ----- the binding -----

  /** The entry's `field_index` counts as k. */
  predicate Names(fg: Json, k: int) {
    var v := Get(fg, "field_index");
    v == Int(k) || (k == 0 && v == Bool(false)) || (k == 1 && v == Bool(true))
  }

  lemma NamesExactly(fg: Json)
    ensures forall k {:trigger Names(fg, k)} :: AsInt(IndexJson(fg)) == Some(k) <==> Names(fg, k)
    ensures AsInt(IndexJson(fg)).None? <==> forall k :: !Names(fg, k)
  {
    hide Get;
    var v := Get(fg, "field_index");
    if v.Int? { assert Names(fg, v.n); }
    if v.Bool? { assert Names(fg, if v.b then 1 else 0); }
  }

  ghost predicate HasField(fg: Json, n: nat) { exists k :: 0 <= k < n && Names(fg, k) }

  ghost predicate HasEntry(fgs: seq<Json>, k: nat) { exists i :: 0 <= i < |fgs| && Names(fgs[i], k) }

  /** Each entry names one field, each field has one entry. */
  ghost predicate OneToOne(fgs: seq<Json>, n: nat) {
    && |fgs| == n
    && (forall i :: 0 <= i < n ==> HasField(fgs[i], n))
    && (forall k :: 0 <= k < n ==> HasEntry(fgs, k))
    && (forall i, j, k :: 0 <= i < j < n && Names(fgs[i], k) ==> !Names(fgs[j], k))
  }

  lemma BijectiveNamed(fgs: seq<Json>, n: nat)
    requires Bijective(fgs, n)
    ensures OneToOne(fgs, n)
  {
    hide Names, AsInt, IndexJson;
    forall i | 0 <= i < n ensures HasField(fgs[i], n) {
      NamesExactly(fgs[i]);
      assert Names(fgs[i], AsInt(IndexJson(fgs[i])).value);
    }
    forall k | 0 <= k < n ensures HasEntry(fgs, k) {
      assert Used(fgs, k);
      var i :| 0 <= i < n && AsInt(IndexJson(fgs[i])) == Some(k);
      NamesExactly(fgs[i]);
      assert Names(fgs[i], k);
    }
    forall i, j, k | 0 <= i < j < n && Names(fgs[i], k) ensures !Names(fgs[j], k) {
      NamesExactly(fgs[i]);
      NamesExactly(fgs[j]);
    }
  }

  lemma NamedBijective(fgs: seq<Json>, n: nat)
    requires OneToOne(fgs, n)
    ensures Bijective(fgs, n)
  {
    hide Names, AsInt, IndexJson;
    forall i | 0 <= i < n
      ensures AsInt(IndexJson(fgs[i])).Some? && 0 <= AsInt(IndexJson(fgs[i])).value < n
    {
      assert HasField(fgs[i], n);
      NamesExactly(fgs[i]);
    }
    forall i, j | 0 <= i < j < n ensures AsInt(IndexJson(fgs[i])) != AsInt(IndexJson(fgs[j])) {
      NamesExactly(fgs[i]);
      NamesExactly(fgs[j]);
      assert Names(fgs[i], AsInt(IndexJson(fgs[i])).value);
    }
    forall k | 0 <= k < n ensures Used(fgs, k) {
      assert HasEntry(fgs, k);
      var i :| 0 <= i < n && Names(fgs[i], k);
      NamesExactly(fgs[i]);
    }
  }

  /** The two lists agree in length and every entry is a dict. */
  predicate TwoLists(fields: Json, grounding: Json) {
    && fields.Arr? && grounding.Arr? && |grounding.items| == |fields.items|
    && forall i :: 0 <= i < |grounding.items| ==> grounding.items[i].Obj?
  }

  predicate TextIndex(fg: Json) { Get(fg, "field_index").Str? }

  ghost predicate NoIndex(fg: Json) { forall k :: !Names(fg, k) }

  /** The binding passes exactly on lists of equal length whose entries and fields correspond one to
      one; it raises exactly on two or more entries whose indexes are neither all numbers nor all
      texts. */
  lemma BindingMeans(fields: Json, grounding: Json)
    ensures BindingOk(fields, grounding) == Some(true) <==>
      TwoLists(fields, grounding) && OneToOne(grounding.items, |fields.items|)
    ensures BindingOk(fields, grounding).None? <==>
      && TwoLists(fields, grounding) && |grounding.items| > 1
      && (exists i :: 0 <= i < |grounding.items| && NoIndex(grounding.items[i]))
      && (exists i :: 0 <= i < |grounding.items| && !TextIndex(grounding.items[i]))
  {
    hide Names, AsInt, IndexJson, OneToOne, Bijective, TextIndex;
    if TwoLists(fields, grounding) {
      BindingExactly(fields, grounding);
      if Bijective(grounding.items, |fields.items|) { BijectiveNamed(grounding.items, |fields.items|); }
      if OneToOne(grounding.items, |fields.items|) { NamedBijective(grounding.items, |fields.items|); }
      forall i | 0 <= i < |grounding.items|
        ensures AsInt(IndexJson(grounding.items[i])).None? <==> NoIndex(grounding.items[i])
        ensures IndexJson(grounding.items[i]).Str? <==> TextIndex(grounding.items[i])
      {
        NamesExactly(grounding.items[i]);
        TextIndexed(grounding.items[i]);
      }
    }
  }

  lemma TextIndexed(fg: Json)
    ensures IndexJson(fg).Str? <==> TextIndex(fg)
  {}

  // ----- one entry -----

  predicate InProjection(anchor: Json, length: nat) {
    var start, end := Get(anchor, "start"), Get(anchor, "end");
    start.Int? && end.Int? && 0 <= start.n <= end.n <= length
  }

  predicate SameWords(anchor: Json, value: Json, projection: string)
    requires InProjection(anchor, |projection|)
  {
    value.Str? && Words(projection[Get(anchor, "start").n..Get(anchor, "end").n]) == Words(value.s)
  }

  /** When the entry draws the code. */
  predicate Draws(c: Code, fg: Json, field: Json, claimed: Json, projection: string) {
    var kind, anchor := Get(fg, "grounding_kind"), Get(fg, "verified_anchor");
    match c
    case KindInvalid => kind != Str("extractive") && kind != Str("abstractive")
    case AbstractiveCarriesAnchor => kind == Str("abstractive") && anchor != Null
    case AnchorMissing => kind == Str("extractive") && !anchor.Obj?
    case AnchorDigestMismatch =>
      kind == Str("extractive") && anchor.Obj? && Abs(Get(anchor, "artifact_digest")) != Abs(claimed)
    case AnchorProfileUnknown =>
      kind == Str("extractive") && anchor.Obj? && Get(anchor, "extraction_profile") != Str(EXTRACTION_PROFILE_ID)
    case SpanOutOfRange => kind == Str("extractive") && anchor.Obj? && !InProjection(anchor, |projection|)
    case SpanTextMismatch =>
      && kind == Str("extractive") && anchor.Obj? && InProjection(anchor, |projection|)
      && !SameWords(anchor, Get(field, "proposed_value"), projection)
  }

  function Rank(c: Code): nat {
    match c
    case KindInvalid => 0 case AbstractiveCarriesAnchor => 1 case AnchorMissing => 2
    case AnchorDigestMismatch => 3 case AnchorProfileUnknown => 4
    case SpanOutOfRange => 5 case SpanTextMismatch => 6
  }

  /** An entry's findings are the codes it draws, each once, in one order. */
  lemma EntryMeans(fg: Json, field: Json, claimed: Json, projection: string)
    ensures var found := FindingsOf(fg, field, claimed, projection);
      && (forall c :: c in found <==> Draws(c, fg, field, claimed, projection))
      && (forall a, b :: 0 <= a < b < |found| ==> Rank(found[a]) < Rank(found[b]))
  {
    KindsDiffer(fg);
    SpanMeans(projection, Anchor(fg), ProposedValue(field));
    hide Get, Abs, SpanFindings, InProjection, SameWords;
  }

  lemma SpanMeans(projection: string, anchor: Json, value: Json)
    ensures SpanInRange(Get(anchor, "start"), Get(anchor, "end"), |projection|) <==> InProjection(anchor, |projection|)
    ensures SpanMatches(projection, anchor, value) <==>
      InProjection(anchor, |projection|) && SameWords(anchor, value, projection)
    ensures SpanFindings(projection, anchor, value) ==
      if !InProjection(anchor, |projection|) then [SpanOutOfRange]
      else if !SameWords(anchor, value, projection) then [SpanTextMismatch] else []
  {
    hide Get, Normalize, Words;
    if InProjection(anchor, |projection|) && value.Str? {
      NormalizeEqual(projection[Get(anchor, "start").n..Get(anchor, "end").n], value.s);
    }
  }

  // ----- all entries -----

  /** Entry i is for field k and draws the code. */
  predicate DrawnAt(c: Code, fgs: seq<Json>, fields: seq<Json>, i: nat, k: nat, claimed: Json, projection: string)
    requires i < |fgs| && k < |fields|
  {
    Names(fgs[i], k) && Draws(c, fgs[i], fields[k], claimed, projection)
  }

  ghost predicate Drawn(c: Code, fgs: seq<Json>, fields: seq<Json>, claimed: Json, projection: string) {
    exists i, k :: 0 <= i < |fgs| && 0 <= k < |fields| && DrawnAt(c, fgs, fields, i, k, claimed, projection)
  }

  /** The anchor of entry i, for field k, is recomputed: its slice has the words of the value. */
  predicate AnchorAt(fgs: seq<Json>, fields: seq<Json>, i: nat, k: nat, projection: string)
    requires i < |fgs| && k < |fields|
  {
    var anchor := Get(fgs[i], "verified_anchor");
    && Names(fgs[i], k) && Get(fgs[i], "grounding_kind") == Str("extractive") && anchor.Obj?
    && InProjection(anchor, |projection|) && SameWords(anchor, Get(fields[k], "proposed_value"), projection)
  }

  ghost predicate AnchorHeld(fgs: seq<Json>, fields: seq<Json>, i: nat, projection: string)
    requires i < |fgs|
  {
    exists k :: 0 <= k < |fields| && AnchorAt(fgs, fields, i, k, projection)
  }

  ghost function Anchored(fgs: seq<Json>, fields: seq<Json>, projection: string): set<nat> {
    set i | 0 <= i < |fgs| && AnchorHeld(fgs, fields, i, projection)
  }

  lemma NamedField(fgs: seq<Json>, fields: seq<Json>, i: nat) returns (k: nat)
    requires OneToOne(fgs, |fields|) && i < |fgs|
    ensures k < |fields| && Names(fgs[i], k) && forall l :: Names(fgs[i], l) ==> l == k
    ensures FieldFor(fgs[i], fields) == fields[k]
  {
    assert HasField(fgs[i], |fields|);
    k :| 0 <= k < |fields| && Names(fgs[i], k);
    NamesExactly(fgs[i]);
  }

  lemma {:induction false} LoopDraws(fgs: seq<Json>, fields: seq<Json>, claimed: Json, projection: string, c: Code)
    ensures c in LoopFindings(fgs, fields, claimed, projection) <==>
      exists i :: 0 <= i < |fgs| && Draws(c, fgs[i], FieldFor(fgs[i], fields), claimed, projection)
  {
    hide Draws, FieldFor, FindingsOf;
    if fgs != [] {
      var n := |fgs| - 1;
      LoopDraws(fgs[..n], fields, claimed, projection, c);
      EntryMeans(fgs[n], FieldFor(fgs[n], fields), claimed, projection);
      assert forall i :: 0 <= i < n ==> fgs[..n][i] == fgs[i];
    }
  }

  /** Each code is recorded exactly when some entry draws it with its own field. */
  lemma CodesExactly(fgs: seq<Json>, fields: seq<Json>, claimed: Json, projection: string, c: Code)
    requires OneToOne(fgs, |fields|)
    ensures c in LoopFindings(fgs, fields, claimed, projection) <==> Drawn(c, fgs, fields, claimed, projection)
  {
    hide Draws, FieldFor, Names, OneToOne;
    LoopDraws(fgs, fields, claimed, projection, c);
    if i :| 0 <= i < |fgs| && Draws(c, fgs[i], FieldFor(fgs[i], fields), claimed, projection) {
      var k := NamedField(fgs, fields, i);
      assert DrawnAt(c, fgs, fields, i, k, claimed, projection);
    }
    if i, k :| 0 <= i < |fgs| && 0 <= k < |fields| && DrawnAt(c, fgs, fields, i, k, claimed, projection) {
      var l := NamedField(fgs, fields, i);
    }
  }

  predicate OnlyTyping(found: seq<Code>) { forall n :: 0 <= n < |found| ==> found[n] == AbstractiveCarriesAnchor }

  /** The anchors pass exactly when no entry draws one of their codes, and the typing when none draws
      one of its two. */
  lemma {:induction false} FlagsExactly(fgs: seq<Json>, fields: seq<Json>, claimed: Json, projection: string)
    ensures var found := LoopFindings(fgs, fields, claimed, projection);
      && (AllExtractiveOk(fgs, fields, claimed, projection) <==> OnlyTyping(found))
      && (AllAbstractiveOk(fgs) <==> KindInvalid !in found && AbstractiveCarriesAnchor !in found)
  {
    hide ExtractiveOk, AbstractiveOk, FieldFor, FindingsOf;
    if fgs != [] {
      var n := |fgs| - 1;
      FlagsExactly(fgs[..n], fields, claimed, projection);
      EntryFlags(fgs[n], FieldFor(fgs[n], fields), claimed, projection);
      OnlyTypingBoth(LoopFindings(fgs[..n], fields, claimed, projection),
                     FindingsOf(fgs[n], FieldFor(fgs[n], fields), claimed, projection));
    }
  }

  lemma OnlyTypingBoth(a: seq<Code>, b: seq<Code>)
    ensures OnlyTyping(a + b) <==> OnlyTyping(a) && OnlyTyping(b)
  {
    assert forall n :: 0 <= n < |a| ==> (a + b)[n] == a[n];
    assert forall n :: 0 <= n < |b| ==> b[n] == (a + b)[|a| + n];
  }

  lemma EntryFlags(fg: Json, field: Json, claimed: Json, projection: string)
    ensures var found := FindingsOf(fg, field, claimed, projection);
      && (ExtractiveOk(fg, field, claimed, projection) <==> OnlyTyping(found))
      && (AbstractiveOk(fg) <==> KindInvalid !in found && AbstractiveCarriesAnchor !in found)
  {
    KindsDiffer(fg);
    EntryFindings(fg, field, claimed, projection);
    hide Anchor, Abstractive, Extractive, ProfilePinned, SameArtifact, ProposedValue, SpanMatches, Grounded,
         SpanInRange;
    var found := FindingsOf(fg, field, claimed, projection);
    if found != [] { assert found[0] in found; }
  }

  /** The anchors counted are the entries whose slice has the words of their own field's value. */
  lemma AnchorsExactly(fgs: seq<Json>, fields: seq<Json>, projection: string)
    requires OneToOne(fgs, |fields|)
    ensures AnchorCount(fgs, fields, projection) == |Anchored(fgs, fields, projection)|
  {
    hide Recomputed, FieldFor, OneToOne, AnchorAt, Names;
    CountRecomputed(fgs, fields, projection);
    forall i | 0 <= i < |fgs|
      ensures Recomputed(fgs[i], FieldFor(fgs[i], fields), projection) <==> AnchorHeld(fgs, fields, i, projection)
    {
      var k := NamedField(fgs, fields, i);
      RecomputedMeans(fgs, fields, i, k, projection);
    }
    assert Anchored(fgs, fields, projection)
        == set i | 0 <= i < |fgs| && Recomputed(fgs[i], FieldFor(fgs[i], fields), projection);
  }

  lemma RecomputedMeans(fgs: seq<Json>, fields: seq<Json>, i: nat, k: nat, projection: string)
    requires i < |fgs| && k < |fields| && Names(fgs[i], k) && forall l :: Names(fgs[i], l) ==> l == k
    requires FieldFor(fgs[i], fields) == fields[k]
    ensures Recomputed(fgs[i], FieldFor(fgs[i], fields), projection) <==> AnchorHeld(fgs, fields, i, projection)
  {
    SpanMeans(projection, Anchor(fgs[i]), ProposedValue(fields[k]));
    hide Get, FieldFor, Names, InProjection, SameWords, SpanMatches;
    assert Recomputed(fgs[i], fields[k], projection) <==> AnchorAt(fgs, fields, i, k, projection);
  }

  lemma {:induction false} CountRecomputed(fgs: seq<Json>, fields: seq<Json>, projection: string)
    ensures AnchorCount(fgs, fields, projection)
         == |set i | 0 <= i < |fgs| && Recomputed(fgs[i], FieldFor(fgs[i], fields), projection)|
  {
    hide Recomputed, FieldFor;
    var all := set i | 0 <= i < |fgs| && Recomputed(fgs[i], FieldFor(fgs[i], fields), projection);
    if fgs == [] {
      assert all == {};
    } else {
      var n := |fgs| - 1;
      CountRecomputed(fgs[..n], fields, projection);
      var before := set i | 0 <= i < |fgs[..n]| && Recomputed(fgs[..n][i], FieldFor(fgs[..n][i], fields), projection);
      assert all == before + if Recomputed(fgs[n], FieldFor(fgs[n], fields), projection) then {n} else {};
    }
  }

  // ----- the projection -----

  predicate Opens(e: Event) { e == StartTag("script") || e == StartTag("style") }

  predicate Closes(e: Event) { e == EndTag("script") || e == EndTag("style") }

  function Opened(es: seq<Event>, a: nat, b: nat): set<nat>
    requires a <= b <= |es|
  {
    set i | a <= i < b && Opens(es[i])
  }

  function Closed(es: seq<Event>, a: nat, b: nat): set<nat>
    requires a <= b <= |es|
  {
    set i | a <= i < b && Closes(es[i])
  }

  /** Event i is a text, and no run of events that ends just before it opens more script and style
      elements than it closes. */
  ghost predicate Visible(es: seq<Event>, i: nat)
    requires i < |es|
  {
    es[i].Data? && forall a :: 0 <= a <= i ==> |Opened(es, a, i)| <= |Closed(es, a, i)|
  }

  lemma {:induction false} BalanceCounts(es: seq<Event>, a: nat, b: nat)
    requires a <= b <= |es|
    ensures Balance(es[a..b]) == |Opened(es, a, b)| - |Closed(es, a, b)|
  {
    if a == b {
      assert Opened(es, a, b) == {} && Closed(es, a, b) == {};
    } else {
      BalanceCounts(es, a, b - 1);
      BalanceStep(es[a..b]);
      assert es[a..b][..b - a - 1] == es[a..b - 1];
      hide *;
      OneMore(es, a, b);
    }
  }

  lemma BalanceStep(es: seq<Event>)
    requires es != []
    ensures var e := es[|es| - 1];
      Balance(es) == Balance(es[..|es| - 1]) + (if Opens(e) then 1 else 0) - (if Closes(e) then 1 else 0)
  {}

  lemma OneMore(es: seq<Event>, a: nat, b: nat)
    requires a < b <= |es|
    ensures |Opened(es, a, b)| == |Opened(es, a, b - 1)| + if Opens(es[b - 1]) then 1 else 0
    ensures |Closed(es, a, b)| == |Closed(es, a, b - 1)| + if Closes(es[b - 1]) then 1 else 0
  {
    hide Opens, Closes;
    assert Opened(es, a, b) == Opened(es, a, b - 1) + if Opens(es[b - 1]) then {b - 1} else {};
    assert Closed(es, a, b) == Closed(es, a, b - 1) + if Closes(es[b - 1]) then {b - 1} else {};
  }

  ghost function VisibleAt(es: seq<Event>, n: nat): set<nat>
    requires n <= |es|
  {
    set i | 0 <= i < n && Visible(es, i)
  }

  lemma {:induction false} NodesAt(es: seq<Event>, n: nat)
    requires n <= |es|
    ensures |VisibleNodes(es[..n])| == |VisibleAt(es, n)|
    ensures forall i :: 0 <= i < n && Visible(es, i) ==>
      |VisibleAt(es, i)| < |VisibleNodes(es[..n])| && VisibleNodes(es[..n])[|VisibleAt(es, i)|] == es[i].text
  {
    hide Visible;
    if n == 0 {
      assert VisibleAt(es, 0) == {};
    } else {
      hide *;
      NodesAt(es, n - 1);
      NodesStep(es, n);
    }
  }

  lemma NodesStep(es: seq<Event>, n: nat)
    requires 0 < n <= |es|
    ensures VisibleNodes(es[..n]) == VisibleNodes(es[..n - 1]) + if Visible(es, n - 1) then [es[n - 1].text] else []
    ensures |VisibleAt(es, n)| == |VisibleAt(es, n - 1)| + if Visible(es, n - 1) then 1 else 0
  {
    VisibleNow(es, n - 1);
    hide Visible, SkipDepth;
    assert es[..n][..n - 1] == es[..n - 1];
    assert VisibleAt(es, n) == VisibleAt(es, n - 1) + if Visible(es, n - 1) then {n - 1} else {};
  }

  lemma VisibleNow(es: seq<Event>, i: nat)
    requires i < |es|
    ensures Visible(es, i) <==> es[i].Data? && SkipDepth(es[..i]) == 0
  {
    hide SkipDepth, Balance, Opened, Closed;
    VisibleExactly(es[..i]);
    forall a | 0 <= a <= i
      ensures Balance(es[..i][a..]) == |Opened(es, a, i)| - |Closed(es, a, i)|
    {
      BalanceCounts(es, a, i);
      assert es[..i][a..] == es[a..i];
    }
  }

  /** The texts kept are those of the visible events, in their order. */
  lemma VisibleNodesExactly(es: seq<Event>)
    ensures |VisibleNodes(es)| == |VisibleAt(es, |es|)|
    ensures forall i :: 0 <= i < |es| && Visible(es, i) ==>
      |VisibleAt(es, i)| < |VisibleNodes(es)| && VisibleNodes(es)[|VisibleAt(es, i)|] == es[i].text
  {
    NodesAt(es, |es|);
    assert es[..|es|] == es;
  }
}
