/** `external_profile.py`: one loop checks the classification entries of a profile declaration, another
    later selects the class of a receipt from them. */
module ExternalProfile {
  import opened JsonValue
  import opened Sorting

  /** A field's value: a text, missing (or null), or something else. */
  datatype Val = Missing | Text(s: string) | Other(n: int)

  datatype Entry = NotObject | Raw(receiptType: Val, receiptClass: Val, receiptKind: Val)

  /** A declaration whose three lists are lists; an envelope is known by whether it publishes
      version 0.2.1. */
  datatype Declaration =
    | NotADict
    | NotLists
    | Lists(permitted: seq<Val>, classifications: seq<Entry>, publishes021: seq<bool>)

  datatype Code =
    | ProfileNotObject | InputsInvalid | ClassificationNotObject | ClassificationIncomplete
    | UndeclaredType | ConflictingDuplicate | PermittedTypeUnclassified | NonFrozenType
    | KindRequired | MissingKind

  const SDK := "sdk_enforcement"
  const REQUIRED_KINDS := ["admission", "outcome"]
  const FROZEN := {"sdk_enforcement", "grace_session", "connection", "provenance"}

  // ----- the check -----

  function Permitted(d: Declaration): set<string>
    requires d.Lists?
  {
    set v | v in d.permitted && v.Text? :: v.s
  }

  predicate Complete(e: Entry) { e.Raw? && e.receiptType.Text? && e.receiptClass.Text? }

  /** The kind an entry is filed under; anything but a text counts as no kind. */
  function KindKey(e: Entry): Option<string>
    requires e.Raw?
  {
    if e.receiptKind.Text? then Some(e.receiptKind.s) else None
  }

  function KeyOf(e: Entry): (string, Option<string>)
    requires Complete(e)
  {
    (e.receiptType.s, KindKey(e))
  }

  predicate Covers(es: seq<Entry>, t: string) { exists e :: e in es && Complete(e) && e.receiptType.s == t }

  predicate CoversKind(es: seq<Entry>, t: string, kind: Option<string>) {
    exists e :: e in es && Complete(e) && KeyOf(e) == (t, kind)
  }

  /** Two entries of one type and kind that name different classes. */
  predicate Conflict(es: seq<Entry>) {
    exists e, f :: e in es && f in es && Complete(e) && Complete(f) && KeyOf(e) == KeyOf(f)
                   && e.receiptClass != f.receiptClass
  }

  /** When each finding is made; no condition depends on the order of the lists. */
  predicate Reported(d: Declaration, k: Code) {
    match d
    case NotADict => k == ProfileNotObject
    case NotLists => k == InputsInvalid
    case Lists(_, es, published) =>
      match k
      case ProfileNotObject => false
      case InputsInvalid => false
      case ClassificationNotObject => NotObject in es
      case ClassificationIncomplete => exists e :: e in es && e.Raw? && !Complete(e)
      case UndeclaredType => exists e :: e in es && Complete(e) && e.receiptType.s !in Permitted(d)
      case ConflictingDuplicate => Conflict(es)
      case PermittedTypeUnclassified => exists t :: t in Permitted(d) && !Covers(es, t)
      case NonFrozenType => true in published && !(Permitted(d) <= FROZEN)
      case KindRequired => SDK in Permitted(d) && CoversKind(es, SDK, None)
      case MissingKind => SDK in Permitted(d) && exists k :: k in REQUIRED_KINDS && !CoversKind(es, SDK, Some(k))
  }

  /** What one entry of the loop reports, given the classes filed so far. */
  function EntryFindings(e: Entry, permitted: set<string>, mappings: map<(string, Option<string>), string>): seq<Code> {
    if e.NotObject? then [ClassificationNotObject]
    else if !Complete(e) then [ClassificationIncomplete]
    else
      (if e.receiptType.s !in permitted then [UndeclaredType] else [])
      + (if KeyOf(e) in mappings && mappings[KeyOf(e)] != e.receiptClass.s then [ConflictingDuplicate] else [])
  }

  /** The classes filed are those of the first entry of each type and kind. */
  ghost predicate Filed(es: seq<Entry>, mappings: map<(string, Option<string>), string>) {
    && (forall e :: e in es && Complete(e) ==> KeyOf(e) in mappings)
    && (forall k :: k in mappings ==>
          exists e :: e in es && Complete(e) && KeyOf(e) == k && e.receiptClass.s == mappings[k])
  }

  predicate LoopReported(es: seq<Entry>, permitted: set<string>, k: Code) {
    match k
    case ClassificationNotObject => NotObject in es
    case ClassificationIncomplete => exists e :: e in es && e.Raw? && !Complete(e)
    case UndeclaredType => exists e :: e in es && Complete(e) && e.receiptType.s !in permitted
    case ConflictingDuplicate => Conflict(es)
    case _ => false
  }

  function File(e: Entry, mappings: map<(string, Option<string>), string>): map<(string, Option<string>), string> {
    if Complete(e) && KeyOf(e) !in mappings then mappings[KeyOf(e) := e.receiptClass.s] else mappings
  }

  lemma OneMore(es: seq<Entry>, e: Entry)
    ensures forall x :: x in es + [e] <==> x in es || x == e
  {}

  lemma FiledMore(es: seq<Entry>, e: Entry, mappings: map<(string, Option<string>), string>)
    requires Filed(es, mappings)
    ensures Filed(es + [e], File(e, mappings))
  {
    OneMore(es, e);
    var more := File(e, mappings);
    forall k | k in more
      ensures exists x :: x in es + [e] && Complete(x) && KeyOf(x) == k && x.receiptClass.s == more[k]
    {
      if k in mappings {
        var x :| x in es && Complete(x) && KeyOf(x) == k && x.receiptClass.s == mappings[k];
        assert x in es + [e];
      } else {
        assert e in es + [e] && KeyOf(e) == k;
      }
    }
  }

  lemma CoversMore(es: seq<Entry>, e: Entry)
    ensures forall t :: Covers(es + [e], t) <==> Covers(es, t) || (Complete(e) && e.receiptType.s == t)
    ensures forall t, k :: CoversKind(es + [e], t, k) <==> CoversKind(es, t, k) || (Complete(e) && KeyOf(e) == (t, k))
  {
    OneMore(es, e);
  }

  lemma ConflictMore(es: seq<Entry>, e: Entry, mappings: map<(string, Option<string>), string>)
    requires Filed(es, mappings)
    ensures Conflict(es + [e]) <==>
      Conflict(es) || (Complete(e) && KeyOf(e) in mappings && mappings[KeyOf(e)] != e.receiptClass.s)
  {
    OneMore(es, e);
    if Complete(e) && KeyOf(e) in mappings && mappings[KeyOf(e)] != e.receiptClass.s {
      var x :| x in es && Complete(x) && KeyOf(x) == KeyOf(e) && x.receiptClass.s == mappings[KeyOf(e)];
      assert x in es + [e] && e in es + [e];
    }
    if Conflict(es) {
      var x, y :| x in es && y in es && Complete(x) && Complete(y) && KeyOf(x) == KeyOf(y)
                  && x.receiptClass != y.receiptClass;
      assert x in es + [e] && y in es + [e];
    }
    if Conflict(es + [e]) && !Conflict(es) {
      var x, y :| x in es + [e] && y in es + [e] && Complete(x) && Complete(y) && KeyOf(x) == KeyOf(y)
                  && x.receiptClass != y.receiptClass;
      var f := if x in es then x else y;
      assert f in es && Complete(e) && KeyOf(f) == KeyOf(e) && f.receiptClass != e.receiptClass;
      var g :| g in es && Complete(g) && KeyOf(g) == KeyOf(e) && g.receiptClass.s == mappings[KeyOf(e)];
      assert g.receiptClass == f.receiptClass;
    }
  }

  lemma ReportedMore(es: seq<Entry>, e: Entry, permitted: set<string>, mappings: map<(string, Option<string>), string>)
    requires Filed(es, mappings)
    ensures forall k :: LoopReported(es + [e], permitted, k) <==>
      LoopReported(es, permitted, k) || k in EntryFindings(e, permitted, mappings)
  {
    OneMore(es, e);
    ConflictMore(es, e, mappings);
    hide Conflict, Filed;
  }

  /** The classification loop: what is covered, by which kinds, and the findings on the way. */
  method Classify(es: seq<Entry>, permitted: set<string>)
    returns (covered: set<string>, coveredKinds: set<(string, Option<string>)>, findings: seq<Code>)
    ensures forall t :: t in covered <==> Covers(es, t)
    ensures forall t, k :: (t, k) in coveredKinds <==> CoversKind(es, t, k)
    ensures forall k :: k in findings <==> LoopReported(es, permitted, k)
  {
    covered, coveredKinds, findings := {}, {}, [];
    var mappings: map<(string, Option<string>), string> := map[];
    assert es[..0] == [];
    for n := 0 to |es|
      invariant forall t :: t in covered <==> Covers(es[..n], t)
      invariant forall t, k :: (t, k) in coveredKinds <==> CoversKind(es[..n], t, k)
      invariant forall k :: k in findings <==> LoopReported(es[..n], permitted, k)
      invariant Filed(es[..n], mappings)
    {
      hide LoopReported, Covers, CoversKind, Filed, EntryFindings;
      var e := es[n];
      assert es[..n + 1] == es[..n] + [e];
      FiledMore(es[..n], e, mappings);
      CoversMore(es[..n], e);
      ReportedMore(es[..n], e, permitted, mappings);
      findings := findings + EntryFindings(e, permitted, mappings);
      if Complete(e) {
        covered := covered + {e.receiptType.s};
        coveredKinds := coveredKinds + {KeyOf(e)};
      }
      mappings := File(e, mappings);
    }
    assert es[..|es|] == es;
  }

  /** `list(dict.fromkeys(findings))`: the first of each. */
  function Firsts(ks: seq<Code>): (r: seq<Code>)
    ensures forall k :: k in r <==> k in ks
    ensures NoRepeats(r)
  {
    if ks == [] then []
    else
      var r := Firsts(ks[..|ks| - 1]);
      if ks[|ks| - 1] in r then r else r + [ks[|ks| - 1]]
  }

  /** The findings made after the loop. */
  predicate LateReported(d: Declaration, k: Code)
    requires d.Lists?
  {
    match k
    case PermittedTypeUnclassified => exists t :: t in Permitted(d) && !Covers(d.classifications, t)
    case NonFrozenType => true in d.publishes021 && !(Permitted(d) <= FROZEN)
    case KindRequired => SDK in Permitted(d) && CoversKind(d.classifications, SDK, None)
    case MissingKind =>
      SDK in Permitted(d) && exists k :: k in REQUIRED_KINDS && !CoversKind(d.classifications, SDK, Some(k))
    case _ => false
  }

  lemma ReportedInTwoParts(d: Declaration)
    requires d.Lists?
    ensures forall k :: Reported(d, k) <==> LoopReported(d.classifications, Permitted(d), k) || LateReported(d, k)
  {
    hide Covers, CoversKind, Conflict, FROZEN, SDK, REQUIRED_KINDS, Permitted;
  }

  method LateFindings(d: Declaration, covered: set<string>, coveredKinds: set<(string, Option<string>)>)
    returns (found: seq<Code>)
    requires d.Lists?
    requires forall t :: t in covered <==> Covers(d.classifications, t)
    requires forall t, k :: (t, k) in coveredKinds <==> CoversKind(d.classifications, t, k)
    ensures forall k :: k in found <==> LateReported(d, k)
  {
    hide Covers, CoversKind, FROZEN, SDK, REQUIRED_KINDS, Permitted;
    var permitted := Permitted(d);
    var unclassified := permitted - covered != {};
    assert unclassified <==> exists t :: t in permitted && !Covers(d.classifications, t) by {
      if unclassified { var t :| t in permitted - covered; }
      if t :| t in permitted && !Covers(d.classifications, t) { assert t in permitted - covered; }
    }
    found := [];
    if unclassified { found := found + [PermittedTypeUnclassified]; }
    if true in d.publishes021 && !(permitted <= FROZEN) { found := found + [NonFrozenType]; }
    if SDK in permitted {
      if (SDK, None) in coveredKinds { found := found + [KindRequired]; }
      if exists k :: k in REQUIRED_KINDS && (SDK, Some(k)) !in coveredKinds { found := found + [MissingKind]; }
    }
  }

  /** `external_profile_cross_field_findings`. */
  method CrossFieldFindings(d: Declaration) returns (findings: seq<Code>)
    ensures forall k :: k in findings <==> Reported(d, k)
    ensures NoRepeats(findings)
  {
    match d
    case NotADict => findings := [ProfileNotObject];
    case NotLists => findings := [InputsInvalid];
    case Lists(_, es, _) =>
      ReportedInTwoParts(d);
      hide Reported, LoopReported, LateReported, Covers, CoversKind;
      var covered, coveredKinds, found := Classify(es, Permitted(d));
      var late := LateFindings(d, covered, coveredKinds);
      findings := Firsts(found + late);
  }

  // ----- the selection -----

  /** The entry speaks of the receipt's type, and of its kind or of no kind in particular. */
  predicate Matches(e: Entry, receiptType: Val, receiptKind: Val) {
    e.Raw? && e.receiptType == receiptType && (e.receiptKind == Missing || e.receiptKind == receiptKind)
  }

  function Candidates(es: seq<Entry>, receiptType: Val, receiptKind: Val): set<string> {
    set e | e in es && Matches(e, receiptType, receiptKind) && e.receiptClass.Text? :: e.receiptClass.s
  }

  lemma CandidatesMore(es: seq<Entry>, e: Entry, receiptType: Val, receiptKind: Val)
    ensures Candidates(es + [e], receiptType, receiptKind)
         == Candidates(es, receiptType, receiptKind)
            + if e.Raw? && Matches(e, receiptType, receiptKind) && e.receiptClass.Text? then {e.receiptClass.s} else {}
  {
    OneMore(es, e);
  }

  /** `_selected_class`: a class exactly when there is one candidate; None is the finding that it is
      missing or ambiguous. */
  method SelectedClass(es: seq<Entry>, receiptType: Val, receiptKind: Val) returns (r: Option<string>)
    ensures forall c :: r == Some(c) <==> Candidates(es, receiptType, receiptKind) == {c}
  {
    var candidates: set<string> := {};
    hide Candidates, Matches;
    NoCandidates(receiptType, receiptKind);
    assert es[..0] == [];
    for n := 0 to |es|
      invariant candidates == Candidates(es[..n], receiptType, receiptKind)
    {
      var e := es[n];
      assert es[..n + 1] == es[..n] + [e];
      CandidatesMore(es[..n], e, receiptType, receiptKind);
      if e.Raw? && Matches(e, receiptType, receiptKind) && e.receiptClass.Text? {
        candidates := candidates + {e.receiptClass.s};
      }
    }
    assert es[..|es|] == es;
    r := TheOne(candidates);
  }

  lemma NoCandidates(receiptType: Val, receiptKind: Val)
    ensures Candidates([], receiptType, receiptKind) == {}
  {}

  method TheOne(candidates: set<string>) returns (r: Option<string>)
    ensures forall c :: r == Some(c) <==> candidates == {c}
  {
    if |candidates| != 1 {
      assert forall c :: candidates == {c} ==> |candidates| == 1;
      return None;
    }
    var c :| c in candidates;
    assert |candidates - {c}| == 0;
    assert candidates == {c};
    return Some(c);
  }

  // ----- the declaration guarantees the selection -----

  /** A declaration without findings that permits sdk_enforcement gives every such receipt of kind
      admission or outcome exactly one class. */
  lemma SelectionDetermined(d: Declaration, kind: string)
    requires d.Lists? && (forall k :: !Reported(d, k))
    requires SDK in Permitted(d) && kind in REQUIRED_KINDS
    ensures exists c :: Candidates(d.classifications, Text(SDK), Text(kind)) == {c}
  {
    var es := d.classifications;
    assert !Reported(d, MissingKind) && !Reported(d, KindRequired) && !Reported(d, ConflictingDuplicate);
    assert !Reported(d, ClassificationIncomplete);
    assert CoversKind(es, SDK, Some(kind));
    hide SDK, REQUIRED_KINDS, Reported, Permitted;
    var e :| e in es && Complete(e) && KeyOf(e) == (SDK, Some(kind));
    var c := e.receiptClass.s;
    forall f | f in es && Matches(f, Text(SDK), Text(kind)) && f.receiptClass.Text?
      ensures f.receiptClass.s == c
    {
      assert Complete(f);
      assert KeyOf(f) != (SDK, None);
      assert f.receiptKind == Text(kind) && KeyOf(f) == KeyOf(e);
    }
    assert Candidates(es, Text(SDK), Text(kind)) == {c};
  }

  /** In general a declaration without findings may still leave a receipt without a class. Whatever
      the receipt holds for its type and kind, a missing kind included, it has a class exactly when
      some entry matches, and an entry without a kind and one for the receipt's kind name the same
      class; a receipt whose kind is no text needs only the match. */
  lemma UnqualifiedSelection(d: Declaration, t: Val, kind: Val)
    requires d.Lists? && (forall k :: !Reported(d, k))
    ensures (exists c :: Candidates(d.classifications, t, kind) == {c}) <==>
      && (exists e :: e in d.classifications && Matches(e, t, kind))
      && (forall e, f :: e in d.classifications && f in d.classifications && Bare(e, t) && Qualified(f, t, kind) ==>
            e.receiptClass == f.receiptClass)
    ensures !kind.Text? ==> ((exists c :: Candidates(d.classifications, t, kind) == {c})
                             <==> exists e :: e in d.classifications && Matches(e, t, kind))
  {
    var es := d.classifications;
    assert !Reported(d, ClassificationIncomplete) && !Reported(d, ConflictingDuplicate);
    hide Reported, Permitted;
    assert forall e :: e in es && e.Raw? ==> Complete(e);
    var cs := Candidates(es, t, kind);
    if c :| cs == {c} {
      assert c in cs;
      forall e, f | e in es && f in es && Bare(e, t) && Qualified(f, t, kind) ensures e.receiptClass == f.receiptClass {
        assert e.receiptClass.s in cs && f.receiptClass.s in cs;
      }
    }
    if !kind.Text? {
      forall e, f | e in es && f in es && Bare(e, t) && Qualified(f, t, kind) ensures e.receiptClass == f.receiptClass {
        assert KeyOf(e) == KeyOf(f);
      }
    }
    if e :| e in es && Matches(e, t, kind) {
      if forall e, f :: e in es && f in es && Bare(e, t) && Qualified(f, t, kind) ==> e.receiptClass == f.receiptClass {
        OneCandidate(es, t, kind, e);
      }
    }
  }

  lemma OneCandidate(es: seq<Entry>, t: Val, kind: Val, e: Entry)
    requires e in es && Matches(e, t, kind)
    requires (forall f :: f in es && f.Raw? ==> Complete(f)) && !Conflict(es)
    requires forall f, g :: f in es && g in es && Bare(f, t) && Qualified(g, t, kind) ==> f.receiptClass == g.receiptClass
    ensures Candidates(es, t, kind) == {e.receiptClass.s}
  {
    var c := e.receiptClass.s;
    forall f | f in es && Matches(f, t, kind) ensures f.receiptClass.s == c {
      assert Complete(e) && Complete(f);
      assert (Bare(e, t) || Qualified(e, t, kind)) && (Bare(f, t) || Qualified(f, t, kind));
      assert KeyOf(e) == KeyOf(f) ==> e.receiptClass == f.receiptClass;
    }
  }

  predicate Bare(e: Entry, t: Val) { e.Raw? && e.receiptType == t && e.receiptKind == Missing }

  predicate Qualified(e: Entry, t: Val, kind: Val) { e.Raw? && e.receiptType == t && e.receiptKind == kind }

  /** One declaration of that sort. */
  lemma AmbiguousWithoutFindings()
    ensures var d := Lists([Text("connection")],
                           [Raw(Text("connection"), Text("a"), Missing), Raw(Text("connection"), Text("b"), Text("open"))],
                           []);
      (forall k :: !Reported(d, k)) && Candidates(d.classifications, Text("connection"), Text("open")) == {"a", "b"}
  {
    var e, f := Raw(Text("connection"), Text("a"), Missing), Raw(Text("connection"), Text("b"), Text("open"));
    var d := Lists([Text("connection")], [e, f], []);
    assert "connection"[0] != SDK[0];
    assert Permitted(d) == {"connection"};
    assert e in d.classifications && Covers(d.classifications, "connection");
    assert e in d.classifications && f in d.classifications;
    hide SDK, REQUIRED_KINDS, FROZEN;
    assert KeyOf(e) != KeyOf(f);
  }

  /** Neither the findings nor the selection depend on the order or repetition of the entries. */
  lemma OrderAndRepetitionFree(d: Declaration, es: seq<Entry>, receiptType: Val, receiptKind: Val)
    requires d.Lists? && forall e :: e in d.classifications <==> e in es
    ensures forall k :: Reported(d.(classifications := es), k) <==> Reported(d, k)
    ensures Candidates(es, receiptType, receiptKind) == Candidates(d.classifications, receiptType, receiptKind)
  {
    assert Permitted(d.(classifications := es)) == Permitted(d);
    assert Conflict(es) == Conflict(d.classifications);
    assert forall t :: Covers(es, t) == Covers(d.classifications, t);
    assert forall t, k :: CoversKind(es, t, k) == CoversKind(d.classifications, t, k);
    hide Conflict, Covers, CoversKind, Permitted, FROZEN, SDK, REQUIRED_KINDS;
  }

  // ----- the findings and the candidates, told by the entries' fields -----

  /** The entry classifies receipts of a type. */
  predicate Names(e: Entry, t: string) { e.Raw? && e.receiptType == Text(t) && e.receiptClass.Text? }

  ghost predicate Classified(es: seq<Entry>, t: string) { exists e :: e in es && Names(e, t) }

  ghost predicate ClassifiedFor(es: seq<Entry>, t: string, kind: string) {
    exists e :: e in es && Names(e, t) && e.receiptKind == Text(kind)
  }

  ghost predicate ClassifiedBarely(es: seq<Entry>, t: string) {
    exists e :: e in es && Names(e, t) && !e.receiptKind.Text?
  }

  /** Two entries file one type and kind, or one type and no kind, under two classes. */
  predicate Disagree(e: Entry, f: Entry) {
    && e.Raw? && f.Raw? && e.receiptType.Text? && e.receiptType == f.receiptType
    && e.receiptClass.Text? && f.receiptClass.Text? && e.receiptClass != f.receiptClass
    && (e.receiptKind == f.receiptKind || (!e.receiptKind.Text? && !f.receiptKind.Text?))
  }

  predicate Frozen(t: string) {
    t == "sdk_enforcement" || t == "grace_session" || t == "connection" || t == "provenance"
  }

  lemma CoversExactly(es: seq<Entry>, t: string)
    ensures Covers(es, t) <==> Classified(es, t)
    ensures CoversKind(es, t, None) <==> ClassifiedBarely(es, t)
    ensures forall k :: CoversKind(es, t, Some(k)) <==> ClassifiedFor(es, t, k)
  {
    assert forall e: Entry :: Complete(e) && e.receiptType.s == t <==> Names(e, t);
    if Classified(es, t) {
      var e :| e in es && Names(e, t);
      assert Complete(e);
    }
    if ClassifiedBarely(es, t) {
      var e :| e in es && Names(e, t) && !e.receiptKind.Text?;
      assert Complete(e) && KeyOf(e) == (t, None);
    }
    forall k ensures CoversKind(es, t, Some(k)) <==> ClassifiedFor(es, t, k) {
      if ClassifiedFor(es, t, k) {
        var e :| e in es && Names(e, t) && e.receiptKind == Text(k);
        assert Complete(e) && KeyOf(e) == (t, Some(k));
      }
    }
  }

  lemma ConflictExactly(es: seq<Entry>)
    ensures Conflict(es) <==> exists e, f :: e in es && f in es && Disagree(e, f)
  {
    forall e, f ensures Disagree(e, f) <==>
      Complete(e) && Complete(f) && KeyOf(e) == KeyOf(f) && e.receiptClass != f.receiptClass {}
    if e, f :| e in es && f in es && Disagree(e, f) { assert Complete(e) && Complete(f); }
  }

  /** When each finding on three lists is made, by the fields of the entries and the permitted texts. */
  lemma ReportedExactly(d: Declaration, k: Code)
    requires d.Lists?
    ensures Reported(d, k) <==>
      match k
      case ProfileNotObject => false
      case InputsInvalid => false
      case ClassificationNotObject => NotObject in d.classifications
      case ClassificationIncomplete =>
        exists e :: e in d.classifications && e.Raw? && !(e.receiptType.Text? && e.receiptClass.Text?)
      case UndeclaredType => exists t :: Classified(d.classifications, t) && Text(t) !in d.permitted
      case ConflictingDuplicate => exists e, f :: e in d.classifications && f in d.classifications && Disagree(e, f)
      case PermittedTypeUnclassified => exists t :: Text(t) in d.permitted && !Classified(d.classifications, t)
      case NonFrozenType => true in d.publishes021 && exists t :: Text(t) in d.permitted && !Frozen(t)
      case KindRequired => Text("sdk_enforcement") in d.permitted && ClassifiedBarely(d.classifications, "sdk_enforcement")
      case MissingKind =>
        && Text("sdk_enforcement") in d.permitted
        && !(ClassifiedFor(d.classifications, "sdk_enforcement", "admission")
             && ClassifiedFor(d.classifications, "sdk_enforcement", "outcome"))
  {
    var es := d.classifications;
    forall t ensures t in Permitted(d) <==> Text(t) in d.permitted {}
    forall t ensures Covers(es, t) <==> Classified(es, t) { CoversExactly(es, t); }
    CoversExactly(es, SDK);
    ConflictExactly(es);
    assert REQUIRED_KINDS[0] == "admission" && REQUIRED_KINDS[1] == "outcome";
    hide Permitted, Covers, CoversKind, Conflict, ClassifiedFor, ClassifiedBarely, Disagree;
    match k {
      case UndeclaredType => UndeclaredExactly(d);
      case NonFrozenType => FrozenExactly(d);
      case _ =>
    }
  }

  lemma UndeclaredExactly(d: Declaration)
    requires d.Lists?
    ensures (exists e :: e in d.classifications && Complete(e) && e.receiptType.s !in Permitted(d)) <==>
      exists t :: Classified(d.classifications, t) && Text(t) !in d.permitted
  {
    if e :| e in d.classifications && Complete(e) && e.receiptType.s !in Permitted(d) {
      assert Names(e, e.receiptType.s);
      assert Classified(d.classifications, e.receiptType.s);
    }
    if t :| Classified(d.classifications, t) && Text(t) !in d.permitted {
      var e :| e in d.classifications && Names(e, t);
      assert Complete(e);
    }
  }

  lemma FrozenExactly(d: Declaration)
    requires d.Lists?
    ensures !(Permitted(d) <= FROZEN) <==> exists t :: Text(t) in d.permitted && !Frozen(t)
  {
    if t :| Text(t) in d.permitted && !Frozen(t) { assert t in Permitted(d) && t !in FROZEN; }
    if !(Permitted(d) <= FROZEN) {
      var t :| t in Permitted(d) && t !in FROZEN;
      assert Text(t) in d.permitted && !Frozen(t);
    }
  }

  /** A class is a candidate exactly when an entry of the receipt's type names it, for no kind at all or
      for the receipt's. */
  lemma CandidatesExactly(es: seq<Entry>, t: Val, kind: Val, c: string)
    ensures c in Candidates(es, t, kind) <==> Raw(t, Text(c), Missing) in es || Raw(t, Text(c), kind) in es
  {
    if c in Candidates(es, t, kind) {
      var e :| e in es && Matches(e, t, kind) && e.receiptClass.Text? && e.receiptClass.s == c;
      assert e == Raw(t, Text(c), e.receiptKind);
    }
    if Raw(t, Text(c), Missing) in es { assert Matches(Raw(t, Text(c), Missing), t, kind); }
    if Raw(t, Text(c), kind) in es { assert Matches(Raw(t, Text(c), kind), t, kind); }
  }
}
