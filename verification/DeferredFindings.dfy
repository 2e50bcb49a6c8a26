/** `deferred_sequence.py`: which finding the report of a sequence holds, and which conclusion it
    draws, told by the receipts alone. */
module DeferredFindings {
  import opened JsonValue
  import opened DeferredSequence

  // ----- what each code says -----

  predicate Given(v: Val) { v.Text? && |v.s| > 0 }

  predicate IsFirst(rs: seq<Receipt>, kind: Kind, d: nat) {
    d < |rs| && rs[d].kind == kind && forall j :: 0 <= j < d ==> rs[j].kind != kind
  }

  /** The reference names another receipt than the first of the kind, which has an id. */
  ghost predicate NamesAnother(rs: seq<Receipt>, kind: Kind, ref: Val) {
    exists d: nat :: IsFirst(rs, kind, d) && rs[d].id != Missing && rs[d].id != ref
  }

  ghost predicate Present(rs: seq<Receipt>, kind: Kind) { exists j :: 0 <= j < |rs| && rs[j].kind == kind }

  ghost predicate IdBefore(rs: seq<Receipt>, i: nat)
    requires i < |rs|
  {
    exists j :: 0 <= j < i && rs[j].id == rs[i].id
  }

  ghost predicate NamesTerminal(rs: seq<Receipt>, ref: Val, d: Disposition) {
    exists j :: 0 <= j < |rs| && rs[j].kind == TerminalAdmission && rs[j].disposition == d && rs[j].id == ref
  }

  /** The code is recorded against receipt i. */
  ghost predicate DrawnAt(rs: seq<Receipt>, c: Code, i: nat)
    requires i < |rs|
  {
    var r := rs[i];
    match c
    case MissingReceiptId => !Given(r.id)
    case DuplicateReceiptId => Given(r.id) && IdBefore(rs, i)
    case IndividualInvalid => !r.valid
    case MissingPredecessorRef => i > 0 && r.kind != DeferRequest && !Given(r.predecessorRef)
    case PredecessorMismatch =>
      i > 0 && r.kind != DeferRequest && Given(r.predecessorRef) && r.predecessorRef != rs[i - 1].id
    case MissingDeferRef => (r.kind == TerminalAdmission || r.kind == ExecutionOutcome) && !Given(r.deferRef)
    case DeferRefMismatch =>
      && (r.kind == TerminalAdmission || r.kind == ExecutionOutcome)
      && Given(r.deferRef) && NamesAnother(rs, DeferRequest, r.deferRef)
    case MissingConditionRef => (r.kind == Reevaluation || r.kind == TerminalAdmission) && !Given(r.conditionRef)
    case ConditionRefMismatch =>
      && (r.kind == Reevaluation || r.kind == TerminalAdmission)
      && Given(r.conditionRef) && NamesAnother(rs, ConditionResponse, r.conditionRef)
    case MissingOperationDigest =>
      && (r.kind == DeferRequest || r.kind == Reevaluation || r.kind == TerminalAdmission || r.kind == ExecutionOutcome)
      && !Given(r.operationDigest)
    case ExpiredThenReevaluated => r.kind == ConditionResponse && r.expired && Present(rs, Reevaluation)
    case InvalidDisposition =>
      r.kind == TerminalAdmission && r.disposition != Admitted && r.disposition != Refused
    case OutcomeAfterRefused => r.kind == ExecutionOutcome && NamesTerminal(rs, r.terminalRef, Refused)
    case MissingTerminalRef => r.kind == ExecutionOutcome && !Given(r.terminalRef)
    case TerminalRefUnresolved =>
      && r.kind == ExecutionOutcome && Given(r.terminalRef)
      && !NamesTerminal(rs, r.terminalRef, Admitted) && !NamesTerminal(rs, r.terminalRef, Refused)
    case _ => false
  }

  /** Some receipt has a textual sequence id, and no two such ids differ. */
  ghost predicate OneId(rs: seq<Receipt>) {
    && (exists i :: 0 <= i < |rs| && rs[i].sequenceId.Text?)
    && forall i, j :: 0 <= i < |rs| && 0 <= j < |rs| && rs[i].sequenceId.Text? && rs[j].sequenceId.Text? ==>
         rs[i].sequenceId == rs[j].sequenceId
  }

  /** The code is recorded against the sequence. */
  ghost predicate DrawnOnce(rs: seq<Receipt>, c: Code) {
    match c
    case EmptyOrMalformed => rs == []
    case NoDeferRequest => rs != [] && !Present(rs, DeferRequest)
    case SequenceIdDiscontinuity => rs != [] && !OneId(rs)
    case ConditionResponseAbsent =>
      (Present(rs, Reevaluation) || Present(rs, TerminalAdmission)) && !Present(rs, ConditionResponse)
    case NoTerminalAdmission => rs != [] && !Present(rs, TerminalAdmission)
    case _ => false
  }

  // ----- one receipt, one check -----

  /** The check that records the code against a receipt. */
  function CheckOf(c: Code): Option<Check> {
    match c
    case MissingReceiptId => Some(Replay)
    case DuplicateReceiptId => Some(Replay)
    case IndividualInvalid => Some(Individual)
    case MissingPredecessorRef => Some(Predecessor)
    case PredecessorMismatch => Some(Predecessor)
    case MissingDeferRef => Some(DeferLink)
    case DeferRefMismatch => Some(DeferLink)
    case MissingConditionRef => Some(ConditionLink)
    case ConditionRefMismatch => Some(ConditionLink)
    case MissingOperationDigest => Some(OperationDigest)
    case ExpiredThenReevaluated => Some(Expiry)
    case InvalidDisposition => Some(DispositionValid)
    case OutcomeAfterRefused => Some(RefusedOutcome)
    case MissingTerminalRef => Some(OutcomeLink)
    case TerminalRefUnresolved => Some(OutcomeLink)
    case _ => None
  }

  lemma FirstExactly(rs: seq<Receipt>, kind: Kind)
    ensures First(rs, kind).Some? <==> Present(rs, kind)
    ensures First(rs, kind).Some? ==> exists d: nat :: IsFirst(rs, kind, d) && rs[d] == First(rs, kind).value
  {
    FirstMeans(rs, kind);
    if First(rs, kind).Some? {
      var d :| 0 <= d < |rs| && rs[d] == First(rs, kind).value && rs[d].kind == kind
               && forall j :: 0 <= j < d ==> rs[j].kind != kind;
      assert IsFirst(rs, kind, d);
    }
  }

  lemma NamesAnotherExactly(rs: seq<Receipt>, kind: Kind, ref: Val)
    ensures NamesAnother(rs, kind, ref) <==>
      First(rs, kind).Some? && First(rs, kind).value.id != Missing && ref != First(rs, kind).value.id
  {
    FirstExactly(rs, kind);
    if First(rs, kind).Some? {
      var d: nat :| IsFirst(rs, kind, d) && rs[d] == First(rs, kind).value;
      forall e: nat | IsFirst(rs, kind, e) ensures e == d { assert !(e < d) && !(d < e); }
    }
  }

  lemma TerminalsExactly(rs: seq<Receipt>, ref: Val, d: Disposition)
    ensures ref in TerminalIds(rs, d) <==> NamesTerminal(rs, ref, d)
  {
    if NamesTerminal(rs, ref, d) {
      var j :| 0 <= j < |rs| && rs[j].kind == TerminalAdmission && rs[j].disposition == d && rs[j].id == ref;
      assert rs[j] in rs && IsTerminal(rs[j], d);
    }
  }

  predicate Holds(fs: seq<Finding>, c: Code, i: nat) { At(c, i) in fs }

  predicate OnlyAt(fs: seq<Finding>, i: nat) { forall n :: 0 <= n < |fs| ==> fs[n].At? && fs[n].index == i }

  lemma ReportExactly(check: Check, rs: seq<Receipt>, i: nat, c: Code)
    requires i < |rs|
    ensures Holds(Report(check, rs, i), c, i) <==> CheckOf(c) == Some(check) && DrawnAt(rs, c, i)
    ensures OnlyAt(Report(check, rs, i), i)
  {
    if check.Replay? || check.Individual? || check.Predecessor? {
      OwnReport(check, rs, i, c);
    } else if check.DeferLink? || check.ConditionLink? {
      LinkReport(check, rs, i, c);
    } else if check.OperationDigest? || check.Expiry? || check.DispositionValid? {
      ValueReport(check, rs, i, c);
    } else {
      OutcomeReport(check, rs, i, c);
    }
  }

  lemma OwnReport(check: Check, rs: seq<Receipt>, i: nat, c: Code)
    requires i < |rs| && (check.Replay? || check.Individual? || check.Predecessor?)
    ensures Holds(Report(check, rs, i), c, i) <==> CheckOf(c) == Some(check) && DrawnAt(rs, c, i)
    ensures OnlyAt(Report(check, rs, i), i)
  {
    assert IdSeen(rs, i, rs[i].id) <==> IdBefore(rs, i);
    hide IdSeen, IdBefore, First, TerminalIds, NamesAnother, Present, NamesTerminal;
  }

  lemma LinkExactly(ref: Val, target: Option<Receipt>, missing: Code, mismatch: Code, i: nat, c: Code)
    requires missing != mismatch
    ensures var found := LinkFindings(ref, target, missing, mismatch, i);
      && OnlyAt(found, i)
      && (Holds(found, c, i) <==>
          || (c == missing && !Given(ref))
          || (c == mismatch && Given(ref) && target.Some? && target.value.id != Missing && ref != target.value.id))
  {}

  lemma LinkReport(check: Check, rs: seq<Receipt>, i: nat, c: Code)
    requires i < |rs| && (check.DeferLink? || check.ConditionLink?)
    ensures Holds(Report(check, rs, i), c, i) <==> CheckOf(c) == Some(check) && DrawnAt(rs, c, i)
    ensures OnlyAt(Report(check, rs, i), i)
  {
    NamesAnotherExactly(rs, DeferRequest, rs[i].deferRef);
    NamesAnotherExactly(rs, ConditionResponse, rs[i].conditionRef);
    LinkExactly(rs[i].deferRef, First(rs, DeferRequest), MissingDeferRef, DeferRefMismatch, i, c);
    LinkExactly(rs[i].conditionRef, First(rs, ConditionResponse), MissingConditionRef, ConditionRefMismatch, i, c);
    hide IdSeen, IdBefore, First, TerminalIds, NamesAnother, Present, NamesTerminal, LinkFindings, Given;
  }

  lemma ValueReport(check: Check, rs: seq<Receipt>, i: nat, c: Code)
    requires i < |rs| && (check.OperationDigest? || check.Expiry? || check.DispositionValid?)
    ensures Holds(Report(check, rs, i), c, i) <==> CheckOf(c) == Some(check) && DrawnAt(rs, c, i)
    ensures OnlyAt(Report(check, rs, i), i)
  {
    FirstExactly(rs, Reevaluation);
    hide IdSeen, IdBefore, First, TerminalIds, NamesAnother, Present, NamesTerminal;
  }

  lemma OutcomeReport(check: Check, rs: seq<Receipt>, i: nat, c: Code)
    requires i < |rs| && (check.RefusedOutcome? || check.OutcomeLink?)
    ensures Holds(Report(check, rs, i), c, i) <==> CheckOf(c) == Some(check) && DrawnAt(rs, c, i)
    ensures OnlyAt(Report(check, rs, i), i)
  {
    TerminalsExactly(rs, rs[i].terminalRef, Admitted);
    TerminalsExactly(rs, rs[i].terminalRef, Refused);
    hide IdSeen, IdBefore, First, TerminalIds, NamesAnother, Present, NamesTerminal;
  }

  lemma {:induction false} UptoExactly(check: Check, rs: seq<Receipt>, n: nat, c: Code, i: nat)
    requires n <= |rs|
    ensures At(c, i) in Upto(check, rs, n) <==> i < n && CheckOf(c) == Some(check) && DrawnAt(rs, c, i)
    ensures Whole(c) !in Upto(check, rs, n)
  {
    hide Report, CheckOf, DrawnAt;
    if n > 0 {
      UptoExactly(check, rs, n - 1, c, i);
      ReportExactly(check, rs, n - 1, c);
    }
  }

  lemma CheckExactly(check: Check, rs: seq<Receipt>, c: Code, i: nat)
    ensures At(c, i) in Findings(check, rs) <==> i < |rs| && CheckOf(c) == Some(check) && DrawnAt(rs, c, i)
    ensures Whole(c) !in Findings(check, rs)
  {
    hide CheckOf, DrawnAt, Upto;
    UptoExactly(check, rs, |rs|, c, i);
  }

  // ----- the whole report -----

  lemma OneIdExactly(rs: seq<Receipt>)
    ensures |SequenceIds(rs)| == 1 <==> OneId(rs)
  {
    if |SequenceIds(rs)| == 1 {
      var s :| s in SequenceIds(rs);
      forall i | 0 <= i < |rs| && rs[i].sequenceId.Text? ensures rs[i].sequenceId == Text(s) {
        assert rs[i] in rs;
        assert rs[i].sequenceId.s in SequenceIds(rs);
        assert |SequenceIds(rs) - {s}| == 0;
      }
    }
    if OneId(rs) {
      var i :| 0 <= i < |rs| && rs[i].sequenceId.Text?;
      assert rs[i] in rs;
      assert SequenceIds(rs) == {rs[i].sequenceId.s};
    }
  }

  lemma OnceExactly(rs: seq<Receipt>)
    requires rs != []
    ensures EventFindings(rs) == if DrawnOnce(rs, NoDeferRequest) then [Whole(NoDeferRequest)] else []
    ensures SequenceIdFindings(rs) == if DrawnOnce(rs, SequenceIdDiscontinuity) then [Whole(SequenceIdDiscontinuity)] else []
    ensures TerminalFindings(rs) == if DrawnOnce(rs, NoTerminalAdmission) then [Whole(NoTerminalAdmission)] else []
    ensures ConditionFindings(rs) == Findings(ConditionLink, rs)
              + if DrawnOnce(rs, ConditionResponseAbsent) then [Whole(ConditionResponseAbsent)] else []
  {
    OneIdExactly(rs);
    FirstExactly(rs, DeferRequest);
    FirstExactly(rs, Reevaluation);
    FirstExactly(rs, TerminalAdmission);
    FirstExactly(rs, ConditionResponse);
    hide First, Present, OneId, SequenceIds, Findings;
  }

  lemma InFour<T>(x: T, a: seq<T>, b: seq<T>, c: seq<T>, d: seq<T>)
    ensures x in a + b + c + d <==> x in a || x in b || x in c || x in d
  {}

  lemma InFive<T>(x: T, a: seq<T>, b: seq<T>, c: seq<T>, d: seq<T>, e: seq<T>)
    ensures x in a + b + c + d + e <==> x in a || x in b || x in c || x in d || x in e
  {}

  lemma IdentityHolds(rs: seq<Receipt>, f: Finding)
    ensures f in IdentityFindings(rs) <==>
      || f in Findings(Replay, rs) || f in Findings(Individual, rs)
      || f in EventFindings(rs) || f in SequenceIdFindings(rs)
  {
    InFour(f, Findings(Replay, rs), Findings(Individual, rs), EventFindings(rs), SequenceIdFindings(rs));
  }

  lemma LinkageHolds(rs: seq<Receipt>, f: Finding)
    ensures f in LinkageFindings(rs) <==>
      || f in Findings(Predecessor, rs) || f in Findings(DeferLink, rs) || f in ConditionFindings(rs)
      || f in Findings(OperationDigest, rs) || f in Findings(Expiry, rs)
  {
    InFive(f, Findings(Predecessor, rs), Findings(DeferLink, rs), ConditionFindings(rs),
           Findings(OperationDigest, rs), Findings(Expiry, rs));
  }

  lemma TerminalStageHolds(rs: seq<Receipt>, f: Finding)
    ensures f in TerminalStageFindings(rs) <==>
      || f in TerminalFindings(rs) || f in Findings(DispositionValid, rs)
      || f in Findings(RefusedOutcome, rs) || f in Findings(OutcomeLink, rs)
  {
    InFour(f, TerminalFindings(rs), Findings(DispositionValid, rs), Findings(RefusedOutcome, rs),
           Findings(OutcomeLink, rs));
  }

  lemma IdentityExactly(rs: seq<Receipt>, c: Code, i: nat)
    requires rs != []
    ensures At(c, i) in IdentityFindings(rs) <==>
      i < |rs| && (CheckOf(c) == Some(Replay) || CheckOf(c) == Some(Individual)) && DrawnAt(rs, c, i)
    ensures Whole(c) in IdentityFindings(rs) <==>
      (c.NoDeferRequest? || c.SequenceIdDiscontinuity?) && DrawnOnce(rs, c)
  {
    hide *;
    CheckExactly(Replay, rs, c, i);
    CheckExactly(Individual, rs, c, i);
    OnceExactly(rs);
    IdentityHolds(rs, At(c, i));
    IdentityHolds(rs, Whole(c));
  }

  lemma LinkageExactly(rs: seq<Receipt>, c: Code, i: nat)
    requires rs != []
    ensures At(c, i) in LinkageFindings(rs) <==>
      && i < |rs| && DrawnAt(rs, c, i)
      && (CheckOf(c) == Some(Predecessor) || CheckOf(c) == Some(DeferLink) || CheckOf(c) == Some(ConditionLink)
          || CheckOf(c) == Some(OperationDigest) || CheckOf(c) == Some(Expiry))
    ensures Whole(c) in LinkageFindings(rs) <==> c.ConditionResponseAbsent? && DrawnOnce(rs, c)
  {
    hide *;
    CheckExactly(Predecessor, rs, c, i);
    CheckExactly(DeferLink, rs, c, i);
    CheckExactly(ConditionLink, rs, c, i);
    CheckExactly(OperationDigest, rs, c, i);
    CheckExactly(Expiry, rs, c, i);
    OnceExactly(rs);
    LinkageHolds(rs, At(c, i));
    LinkageHolds(rs, Whole(c));
  }

  lemma TerminalStageExactly(rs: seq<Receipt>, c: Code, i: nat)
    requires rs != []
    ensures At(c, i) in TerminalStageFindings(rs) <==>
      && i < |rs| && DrawnAt(rs, c, i)
      && (CheckOf(c) == Some(DispositionValid) || CheckOf(c) == Some(RefusedOutcome) || CheckOf(c) == Some(OutcomeLink))
    ensures Whole(c) in TerminalStageFindings(rs) <==> c.NoTerminalAdmission? && DrawnOnce(rs, c)
  {
    hide *;
    CheckExactly(DispositionValid, rs, c, i);
    CheckExactly(RefusedOutcome, rs, c, i);
    CheckExactly(OutcomeLink, rs, c, i);
    OnceExactly(rs);
    TerminalStageHolds(rs, At(c, i));
    TerminalStageHolds(rs, Whole(c));
  }

  /** A code is recorded against a receipt, or against the sequence, exactly when its condition on the
      receipts holds. */
  lemma FoundExactly(rs: seq<Receipt>, c: Code, i: nat)
    ensures At(c, i) in AllFindings(rs) <==> i < |rs| && DrawnAt(rs, c, i)
    ensures Whole(c) in AllFindings(rs) <==> DrawnOnce(rs, c)
  {
    if rs != [] {
      IdentityExactly(rs, c, i);
      LinkageExactly(rs, c, i);
      TerminalStageExactly(rs, c, i);
      hide IdentityFindings, LinkageFindings, TerminalStageFindings, Given, NamesAnother, NamesTerminal, IdBefore,
           Present, OneId;
    }
  }

  /** A sequence passes exactly when no condition holds. */
  lemma PassedExactly(rs: seq<Receipt>)
    ensures AllPassed(rs) <==> Spotless(rs)
  {
    PassedIffNoFindings(rs);
    hide AllPassed, DrawnAt, DrawnOnce, AllFindings;
    if AllFindings(rs) == [] {
      forall c ensures !DrawnOnce(rs, c) { FoundExactly(rs, c, 0); }
      forall c, i: nat | i < |rs| ensures !DrawnAt(rs, c, i) { FoundExactly(rs, c, i); }
    } else {
      var f := AllFindings(rs)[0];
      assert f in AllFindings(rs);
      match f
      case At(c, i) => FoundExactly(rs, c, i);
      case Whole(c) => FoundExactly(rs, c, 0);
    }
  }

  ghost predicate Spotless(rs: seq<Receipt>) {
    && (forall c :: !DrawnOnce(rs, c))
    && forall c, i: nat :: i < |rs| ==> !DrawnAt(rs, c, i)
  }

  /** The code is recorded against no receipt. */
  ghost predicate Free(rs: seq<Receipt>, c: Code) { forall i: nat :: i < |rs| ==> !DrawnAt(rs, c, i) }

  /** The codes c and d are those of the check. */
  ghost predicate Owns(check: Check, c: Code, d: Code) {
    && CheckOf(c) == Some(check) && CheckOf(d) == Some(check)
    && forall e :: CheckOf(e) == Some(check) ==> e == c || e == d
  }

  function Codes(check: Check): (Code, Code) {
    match check
    case Replay => (MissingReceiptId, DuplicateReceiptId)
    case Individual => (IndividualInvalid, IndividualInvalid)
    case Predecessor => (MissingPredecessorRef, PredecessorMismatch)
    case DeferLink => (MissingDeferRef, DeferRefMismatch)
    case ConditionLink => (MissingConditionRef, ConditionRefMismatch)
    case OperationDigest => (MissingOperationDigest, MissingOperationDigest)
    case Expiry => (ExpiredThenReevaluated, ExpiredThenReevaluated)
    case DispositionValid => (InvalidDisposition, InvalidDisposition)
    case RefusedOutcome => (OutcomeAfterRefused, OutcomeAfterRefused)
    case OutcomeLink => (MissingTerminalRef, TerminalRefUnresolved)
  }

  lemma CodesOwned(check: Check)
    ensures Owns(check, Codes(check).0, Codes(check).1)
  {
    forall e | CheckOf(e) == Some(check) ensures e == Codes(check).0 || e == Codes(check).1 {
      OwnCode(e);
    }
  }

  lemma OwnCode(e: Code)
    ensures CheckOf(e).Some? ==> e == Codes(CheckOf(e).value).0 || e == Codes(CheckOf(e).value).1
  {}

  lemma ReportSilent(check: Check, rs: seq<Receipt>, i: nat)
    requires i < |rs|
    ensures Report(check, rs, i) == [] <==> !DrawnAt(rs, Codes(check).0, i) && !DrawnAt(rs, Codes(check).1, i)
  {
    CodesOwned(check);
    hide CheckOf, DrawnAt, Report, Codes;
    ReportExactly(check, rs, i, Codes(check).0);
    ReportExactly(check, rs, i, Codes(check).1);
    if Report(check, rs, i) != [] {
      var f := Report(check, rs, i)[0];
      ReportExactly(check, rs, i, f.code);
    }
  }

  lemma CheckSilent(check: Check, rs: seq<Receipt>)
    ensures Findings(check, rs) == [] <==> Free(rs, Codes(check).0) && Free(rs, Codes(check).1)
  {
    hide DrawnAt, Report, Codes;
    Silent(check, rs, |rs|);
    forall i | 0 <= i < |rs|
      ensures Report(check, rs, i) == [] <==> !DrawnAt(rs, Codes(check).0, i) && !DrawnAt(rs, Codes(check).1, i)
    {
      ReportSilent(check, rs, i);
    }
  }

  /** Each conclusion is drawn exactly when its own codes are not. */
  lemma ConclusionsExactly(rs: seq<Receipt>)
    ensures Judged(rs, EventFindings(rs)) == True <==> rs != [] && !DrawnOnce(rs, NoDeferRequest)
    ensures Judged(rs, SequenceIdFindings(rs)) == True <==> rs != [] && !DrawnOnce(rs, SequenceIdDiscontinuity)
    ensures Judged(rs, Findings(Predecessor, rs)) == True <==>
      rs != [] && Free(rs, MissingPredecessorRef) && Free(rs, PredecessorMismatch)
    ensures Judged(rs, Findings(DeferLink, rs)) == True <==>
      rs != [] && Free(rs, MissingDeferRef) && Free(rs, DeferRefMismatch)
    ensures Judged(rs, ConditionFindings(rs)) == True <==>
      && rs != [] && Free(rs, MissingConditionRef) && Free(rs, ConditionRefMismatch)
      && !DrawnOnce(rs, ConditionResponseAbsent)
    ensures Judged(rs, Findings(OperationDigest, rs)) == True <==> rs != [] && Free(rs, MissingOperationDigest)
    ensures Judged(rs, Findings(Expiry, rs)) == True <==> rs != [] && Free(rs, ExpiredThenReevaluated)
    ensures Judged(rs, TerminalFindings(rs)) == True <==> rs != [] && !DrawnOnce(rs, NoTerminalAdmission)
    ensures Judged(rs, Findings(DispositionValid, rs)) == True <==> rs != [] && Free(rs, InvalidDisposition)
    ensures Judged(rs, Findings(RefusedOutcome, rs)) == True <==> rs != [] && Free(rs, OutcomeAfterRefused)
    ensures Judged(rs, Findings(OutcomeLink, rs)) == True <==>
      rs != [] && Free(rs, MissingTerminalRef) && Free(rs, TerminalRefUnresolved)
    ensures Judged(rs, Findings(Replay, rs)) == True <==>
      rs != [] && Free(rs, MissingReceiptId) && Free(rs, DuplicateReceiptId)
    ensures Judged(rs, Findings(Individual, rs)) == True <==> rs != [] && Free(rs, IndividualInvalid)
  {
    hide Findings, Free, DrawnOnce, Owns, EventFindings, SequenceIdFindings, ConditionFindings, TerminalFindings;
    if rs != [] { OnceExactly(rs); }
    forall check ensures Findings(check, rs) == [] <==> Free(rs, Codes(check).0) && Free(rs, Codes(check).1) {
      CheckSilent(check, rs);
    }
  }
}
