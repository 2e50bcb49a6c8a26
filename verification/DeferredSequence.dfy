/** `deferred_sequence.py`: verification of a deferred-operation sequence. Each check is a loop of its
    own; what the sequence guarantees follows only from the checks together. The verification of a
    single receipt is not part of this model: its verdict comes with the receipt. */
module DeferredSequence {
  import opened JsonValue

  /** A field's value: a text, missing, or something else. */
  datatype Val = Missing | Text(s: string) | Other(n: int)

  datatype Kind =
    | DeferRequest | ConditionResponse | Reevaluation | TerminalAdmission | ExecutionOutcome
    | ReceiptGap | OtherKind

  datatype Disposition = Admitted | Refused | OtherDisposition

  datatype Receipt = Receipt(
    id: Val, kind: Kind, sequenceId: Val, predecessorRef: Val, deferRef: Val, conditionRef: Val,
    operationDigest: Val, expired: bool, disposition: Disposition, terminalRef: Val,
    valid: bool)

  datatype Code =
    | EmptyOrMalformed | MissingReceiptId | DuplicateReceiptId | IndividualInvalid | NoDeferRequest
    | SequenceIdDiscontinuity | MissingPredecessorRef | PredecessorMismatch | MissingDeferRef
    | DeferRefMismatch | MissingConditionRef | ConditionRefMismatch | ConditionResponseAbsent
    | MissingOperationDigest | ExpiredThenReevaluated | NoTerminalAdmission | InvalidDisposition
    | OutcomeAfterRefused | MissingTerminalRef | TerminalRefUnresolved

  datatype Finding = At(code: Code, index: nat) | Whole(code: Code)

  predicate Named(v: Val) { v.Text? && v.s != [] }

  // ----- what each loop reports about one receipt -----

  datatype Check =
    | Replay | Individual | Predecessor | DeferLink | ConditionLink | OperationDigest | Expiry
    | DispositionValid | RefusedOutcome | OutcomeLink

  predicate IdSeen(rs: seq<Receipt>, n: nat, id: Val)
    requires n <= |rs|
  {
    exists j :: 0 <= j < n && rs[j].id == id
  }

  /** The first receipt of a kind, as `[...][0]` picks it. */
  function First(rs: seq<Receipt>, kind: Kind): Option<Receipt> {
    if rs == [] then None else if rs[0].kind == kind then Some(rs[0]) else First(rs[1..], kind)
  }

  /** A required reference, and what it must equal when there is something to compare with. */
  function LinkFindings(ref: Val, target: Option<Receipt>, missing: Code, mismatch: Code, i: nat): seq<Finding> {
    if !Named(ref) then [At(missing, i)]
    else if target.Some? && target.value.id != Missing && ref != target.value.id then [At(mismatch, i)]
    else []
  }

  predicate IsTerminal(r: Receipt, d: Disposition) { r.kind == TerminalAdmission && r.disposition == d }

  function TerminalIds(rs: seq<Receipt>, d: Disposition): set<Val> {
    set r | r in rs && IsTerminal(r, d) :: r.id
  }

  function Report(c: Check, rs: seq<Receipt>, i: nat): seq<Finding>
    requires i < |rs|
  {
    var r := rs[i];
    match c
    case Replay =>
      if !Named(r.id) then [At(MissingReceiptId, i)]
      else if IdSeen(rs, i, r.id) then [At(DuplicateReceiptId, i)] else []
    case Individual => if r.valid then [] else [At(IndividualInvalid, i)]
    case Predecessor =>
      if i == 0 || r.kind == DeferRequest then []
      else if !Named(r.predecessorRef) then [At(MissingPredecessorRef, i)]
      else if r.predecessorRef != rs[i - 1].id then [At(PredecessorMismatch, i)] else []
    case DeferLink =>
      if !r.kind.TerminalAdmission? && !r.kind.ExecutionOutcome? then []
      else LinkFindings(r.deferRef, First(rs, DeferRequest), MissingDeferRef, DeferRefMismatch, i)
    case ConditionLink =>
      if !r.kind.Reevaluation? && !r.kind.TerminalAdmission? then []
      else LinkFindings(r.conditionRef, First(rs, ConditionResponse), MissingConditionRef, ConditionRefMismatch, i)
    case OperationDigest =>
      if (r.kind.DeferRequest? || r.kind.Reevaluation? || r.kind.TerminalAdmission? || r.kind.ExecutionOutcome?)
         && !Named(r.operationDigest) then [At(MissingOperationDigest, i)] else []
    case Expiry =>
      if r.kind == ConditionResponse && r.expired && First(rs, Reevaluation).Some?
      then [At(ExpiredThenReevaluated, i)] else []
    case DispositionValid =>
      if r.kind == TerminalAdmission && r.disposition == OtherDisposition then [At(InvalidDisposition, i)] else []
    case RefusedOutcome =>
      if r.kind == ExecutionOutcome && r.terminalRef in TerminalIds(rs, Refused)
      then [At(OutcomeAfterRefused, i)] else []
    case OutcomeLink =>
      if r.kind != ExecutionOutcome then []
      else if !Named(r.terminalRef) then [At(MissingTerminalRef, i)]
      else if r.terminalRef !in TerminalIds(rs, Admitted) && r.terminalRef !in TerminalIds(rs, Refused)
      then [At(TerminalRefUnresolved, i)] else []
  }

  /** A loop's findings over the first receipts. */
  function Upto(c: Check, rs: seq<Receipt>, n: nat): seq<Finding>
    requires n <= |rs|
  {
    if n == 0 then [] else Upto(c, rs, n - 1) + Report(c, rs, n - 1)
  }

  function Findings(c: Check, rs: seq<Receipt>): seq<Finding> { Upto(c, rs, |rs|) }

  lemma {:induction false} Silent(c: Check, rs: seq<Receipt>, n: nat)
    requires n <= |rs|
    ensures Upto(c, rs, n) == [] <==> forall i :: 0 <= i < n ==> Report(c, rs, i) == []
  {
    hide Report;
    if n > 0 { Silent(c, rs, n - 1); }
  }

  lemma OneMore(c: Check, rs: seq<Receipt>, i: nat, before: seq<Finding>)
    requires i < |rs|
    ensures before + Upto(c, rs, i + 1) == (before + Upto(c, rs, i)) + Report(c, rs, i)
    ensures Upto(c, rs, i + 1) == [] <==> Upto(c, rs, i) == [] && Report(c, rs, i) == []
  {
    hide Report;
  }

  /** The first receipt needs no predecessor. */
  lemma FirstUnlinked(rs: seq<Receipt>)
    requires rs != []
    ensures Upto(Predecessor, rs, 1) == []
  {
    assert Upto(Predecessor, rs, 1) == Upto(Predecessor, rs, 0) + Report(Predecessor, rs, 0);
  }

  predicate HasKind(rs: seq<Receipt>, kind: Kind) { exists i :: 0 <= i < |rs| && rs[i].kind == kind }

  lemma {:induction false} FirstMeans(rs: seq<Receipt>, kind: Kind)
    ensures First(rs, kind).Some? <==> HasKind(rs, kind)
    ensures First(rs, kind).Some? ==>
      exists i :: 0 <= i < |rs| && rs[i] == First(rs, kind).value && rs[i].kind == kind
                  && forall j :: 0 <= j < i ==> rs[j].kind != kind
  {
    if rs != [] && rs[0].kind != kind {
      FirstMeans(rs[1..], kind);
      if HasKind(rs, kind) {
        var i :| 0 <= i < |rs| && rs[i].kind == kind;
        assert rs[1..][i - 1].kind == kind;
      }
      if First(rs, kind).Some? {
        var i :| 0 <= i < |rs[1..]| && rs[1..][i] == First(rs, kind).value && rs[1..][i].kind == kind
                 && forall j :: 0 <= j < i ==> rs[1..][j].kind != kind;
        assert rs[i + 1] == First(rs, kind).value;
        forall j | 0 <= j < i + 1 ensures rs[j].kind != kind { if j > 0 { assert rs[j] == rs[1..][j - 1]; } }
      }
    }
  }

  /** The texts among the sequence ids. */
  function SequenceIds(rs: seq<Receipt>): set<string> {
    set r | r in rs && r.sequenceId.Text? :: r.sequenceId.s
  }

  function OneIf(bad: bool, code: Code): seq<Finding> { if bad then [Whole(code)] else [] }

  function EventFindings(rs: seq<Receipt>): seq<Finding> { OneIf(First(rs, DeferRequest).None?, NoDeferRequest) }

  function SequenceIdFindings(rs: seq<Receipt>): seq<Finding> {
    OneIf(|SequenceIds(rs)| != 1, SequenceIdDiscontinuity)
  }

  function ConditionFindings(rs: seq<Receipt>): seq<Finding> {
    Findings(ConditionLink, rs)
    + OneIf((First(rs, Reevaluation).Some? || First(rs, TerminalAdmission).Some?) && First(rs, ConditionResponse).None?,
            ConditionResponseAbsent)
  }

  function TerminalFindings(rs: seq<Receipt>): seq<Finding> {
    OneIf(First(rs, TerminalAdmission).None?, NoTerminalAdmission)
  }

  // ----- the report -----

  datatype Conclusion = True | False | NotEvaluated

  function Concluded(fs: seq<Finding>): Conclusion { if fs == [] then True else False }

  /** Without receipts every conclusion is negative. */
  function Judged(rs: seq<Receipt>, fs: seq<Finding>): Conclusion { if rs == [] then False else Concluded(fs) }

  class DeferredSequenceReport {
    var eventPresence: Conclusion
    var sequenceIdContinuity: Conclusion
    var predecessorLinkage: Conclusion
    var deferReceiptLinkage: Conclusion
    var conditionReceiptLinkage: Conclusion
    var operationDigestContinuity: Conclusion
    var responseExpiryHonoured: Conclusion
    var terminalStatePresent: Conclusion
    var terminalDispositionValid: Conclusion
    var refusedHasNoExecutionOutcome: Conclusion
    var outcomeLinksAdmittedTerminal: Conclusion
    var replayClean: Conclusion
    var individualReceiptsValid: Conclusion
    var receiptGapDisclosed: Conclusion
    var findings: seq<Finding>

    constructor ()
      ensures findings == []
    {
      eventPresence, sequenceIdContinuity, predecessorLinkage := NotEvaluated, NotEvaluated, NotEvaluated;
      deferReceiptLinkage, conditionReceiptLinkage := NotEvaluated, NotEvaluated;
      operationDigestContinuity, responseExpiryHonoured := NotEvaluated, NotEvaluated;
      terminalStatePresent, terminalDispositionValid := NotEvaluated, NotEvaluated;
      refusedHasNoExecutionOutcome, outcomeLinksAdmittedTerminal := NotEvaluated, NotEvaluated;
      replayClean, individualReceiptsValid, receiptGapDisclosed := NotEvaluated, NotEvaluated, NotEvaluated;
      findings := [];
    }

    /** `passed`: thirteen conclusions, the disclosure of gaps not among them. */
    predicate Passed()
      reads this
    {
      eventPresence.True? && sequenceIdContinuity.True? && predecessorLinkage.True? && deferReceiptLinkage.True?
      && conditionReceiptLinkage.True? && operationDigestContinuity.True? && responseExpiryHonoured.True?
      && terminalStatePresent.True? && terminalDispositionValid.True? && refusedHasNoExecutionOutcome.True?
      && outcomeLinksAdmittedTerminal.True? && replayClean.True? && individualReceiptsValid.True?
    }

    /** Each conclusion, with the findings it goes by. */
    predicate Concludes(rs: seq<Receipt>)
      reads this
    {
      && eventPresence == Judged(rs, EventFindings(rs))
      && sequenceIdContinuity == Judged(rs, SequenceIdFindings(rs))
      && predecessorLinkage == Judged(rs, Findings(Predecessor, rs))
      && deferReceiptLinkage == Judged(rs, Findings(DeferLink, rs))
      && conditionReceiptLinkage == Judged(rs, ConditionFindings(rs))
      && operationDigestContinuity == Judged(rs, Findings(OperationDigest, rs))
      && responseExpiryHonoured == Judged(rs, Findings(Expiry, rs))
      && terminalStatePresent == Judged(rs, TerminalFindings(rs))
      && terminalDispositionValid == Judged(rs, Findings(DispositionValid, rs))
      && refusedHasNoExecutionOutcome == Judged(rs, Findings(RefusedOutcome, rs))
      && outcomeLinksAdmittedTerminal == Judged(rs, Findings(OutcomeLink, rs))
      && replayClean == Judged(rs, Findings(Replay, rs))
      && individualReceiptsValid == Judged(rs, Findings(Individual, rs))
    }

    method Fail(code: Code, i: nat)
      modifies `findings
      ensures findings == old(findings) + [At(code, i)]
    {
      findings := findings + [At(code, i)];
    }

    method FailWhole(code: Code)
      modifies `findings
      ensures findings == old(findings) + [Whole(code)]
    {
      findings := findings + [Whole(code)];
    }

    method CheckReplay(rs: seq<Receipt>)
      modifies `findings, `replayClean
      ensures findings == old(findings) + Findings(Replay, rs)
      ensures replayClean == Concluded(Findings(Replay, rs))
    {
      var seen: set<string>, ok := {}, true;
      for i := 0 to |rs|
        invariant findings == old(findings) + Upto(Replay, rs, i)
        invariant ok <==> Upto(Replay, rs, i) == []
        invariant forall s :: s in seen <==> s != [] && IdSeen(rs, i, Text(s))
      {
        var id := rs[i].id;
        if !Named(id) {
          Fail(MissingReceiptId, i);
          ok := false;
        } else if id.s in seen {
          Fail(DuplicateReceiptId, i);
          ok := false;
        } else {
          seen := seen + {id.s};
        }
        assert forall s :: IdSeen(rs, i + 1, Text(s)) <==> IdSeen(rs, i, Text(s)) || id == Text(s);
      }
      replayClean := if ok then True else False;
    }

    method CheckIndividual(rs: seq<Receipt>)
      modifies `findings, `individualReceiptsValid
      ensures findings == old(findings) + Findings(Individual, rs)
      ensures individualReceiptsValid == Concluded(Findings(Individual, rs))
    {
      var ok := true;
      for i := 0 to |rs|
        invariant findings == old(findings) + Upto(Individual, rs, i)
        invariant ok <==> Upto(Individual, rs, i) == []
      {
        if !rs[i].valid {
          ok := false;
          Fail(IndividualInvalid, i);
        }
      }
      individualReceiptsValid := if ok then True else False;
    }

    method CheckSequenceIds(rs: seq<Receipt>)
      modifies `findings, `sequenceIdContinuity
      ensures findings == old(findings) + SequenceIdFindings(rs)
      ensures sequenceIdContinuity == Concluded(SequenceIdFindings(rs))
    {
      if |SequenceIds(rs)| == 1 {
        sequenceIdContinuity := True;
      } else {
        sequenceIdContinuity := False;
        FailWhole(SequenceIdDiscontinuity);
      }
    }

    method CheckPredecessors(rs: seq<Receipt>)
      requires rs != []
      modifies `findings, `predecessorLinkage
      ensures findings == old(findings) + Findings(Predecessor, rs)
      ensures predecessorLinkage == Concluded(Findings(Predecessor, rs))
    {
      var ok := true;
      FirstUnlinked(rs);
      hide Report, Upto;
      for i := 1 to |rs|
        invariant findings == old(findings) + Upto(Predecessor, rs, i)
        invariant ok <==> Upto(Predecessor, rs, i) == []
      {
        var linked := CheckPredecessor(rs, i);
        ok := ok && linked;
        OneMore(Predecessor, rs, i, old(findings));
      }
      predecessorLinkage := if ok then True else False;
    }

    method CheckPredecessor(rs: seq<Receipt>, i: nat) returns (ok: bool)
      requires 1 <= i < |rs|
      modifies `findings
      ensures findings == old(findings) + Report(Predecessor, rs, i)
      ensures ok <==> Report(Predecessor, rs, i) == []
    {
      ok := true;
      var r := rs[i];
      if r.kind != DeferRequest {
        if !Named(r.predecessorRef) {
          ok := false;
          Fail(MissingPredecessorRef, i);
        } else if r.predecessorRef != rs[i - 1].id {
          ok := false;
          Fail(PredecessorMismatch, i);
        }
      }
    }

    method CheckDeferLinks(rs: seq<Receipt>)
      modifies `findings, `deferReceiptLinkage
      ensures findings == old(findings) + Findings(DeferLink, rs)
      ensures deferReceiptLinkage == Concluded(Findings(DeferLink, rs))
    {
      var ok, defer := true, First(rs, DeferRequest);
      var deferId := if defer.Some? then defer.value.id else Missing;
      for i := 0 to |rs|
        invariant findings == old(findings) + Upto(DeferLink, rs, i)
        invariant ok <==> Upto(DeferLink, rs, i) == []
      {
        var r := rs[i];
        if r.kind.TerminalAdmission? || r.kind.ExecutionOutcome? {
          if !Named(r.deferRef) {
            ok := false;
            Fail(MissingDeferRef, i);
          } else if deferId != Missing && r.deferRef != deferId {
            ok := false;
            Fail(DeferRefMismatch, i);
          }
        }
      }
      deferReceiptLinkage := if ok then True else False;
    }

    method CheckConditionLinks(rs: seq<Receipt>)
      modifies `findings, `conditionReceiptLinkage
      ensures findings == old(findings) + ConditionFindings(rs)
      ensures conditionReceiptLinkage == Concluded(ConditionFindings(rs))
    {
      var ok, condition := true, First(rs, ConditionResponse);
      var conditionId := if condition.Some? then condition.value.id else Missing;
      for i := 0 to |rs|
        invariant findings == old(findings) + Upto(ConditionLink, rs, i)
        invariant ok <==> Upto(ConditionLink, rs, i) == []
      {
        var r := rs[i];
        if r.kind.Reevaluation? || r.kind.TerminalAdmission? {
          if !Named(r.conditionRef) {
            ok := false;
            Fail(MissingConditionRef, i);
          } else if conditionId != Missing && r.conditionRef != conditionId {
            ok := false;
            Fail(ConditionRefMismatch, i);
          }
        }
      }
      if (First(rs, Reevaluation).Some? || First(rs, TerminalAdmission).Some?) && condition.None? {
        ok := false;
        FailWhole(ConditionResponseAbsent);
      }
      conditionReceiptLinkage := if ok then True else False;
    }

    method CheckOperationDigests(rs: seq<Receipt>)
      modifies `findings, `operationDigestContinuity
      ensures findings == old(findings) + Findings(OperationDigest, rs)
      ensures operationDigestContinuity == Concluded(Findings(OperationDigest, rs))
    {
      var ok := true;
      for i := 0 to |rs|
        invariant findings == old(findings) + Upto(OperationDigest, rs, i)
        invariant ok <==> Upto(OperationDigest, rs, i) == []
      {
        var r := rs[i];
        if r.kind.DeferRequest? || r.kind.Reevaluation? || r.kind.TerminalAdmission? || r.kind.ExecutionOutcome? {
          if !Named(r.operationDigest) {
            ok := false;
            Fail(MissingOperationDigest, i);
          }
        }
      }
      operationDigestContinuity := if ok then True else False;
    }

    method CheckExpiry(rs: seq<Receipt>)
      modifies `findings, `responseExpiryHonoured
      ensures findings == old(findings) + Findings(Expiry, rs)
      ensures responseExpiryHonoured == Concluded(Findings(Expiry, rs))
    {
      var ok := true;
      for i := 0 to |rs|
        invariant findings == old(findings) + Upto(Expiry, rs, i)
        invariant ok <==> Upto(Expiry, rs, i) == []
      {
        if rs[i].kind == ConditionResponse && rs[i].expired && First(rs, Reevaluation).Some? {
          ok := false;
          Fail(ExpiredThenReevaluated, i);
        }
      }
      responseExpiryHonoured := if ok then True else False;
    }

    method CheckDispositions(rs: seq<Receipt>)
      modifies `findings, `terminalDispositionValid
      ensures findings == old(findings) + Findings(DispositionValid, rs)
      ensures terminalDispositionValid == Concluded(Findings(DispositionValid, rs))
    {
      var ok := true;
      for i := 0 to |rs|
        invariant findings == old(findings) + Upto(DispositionValid, rs, i)
        invariant ok <==> Upto(DispositionValid, rs, i) == []
      {
        if rs[i].kind == TerminalAdmission && rs[i].disposition == OtherDisposition {
          ok := false;
          Fail(InvalidDisposition, i);
        }
      }
      terminalDispositionValid := if ok then True else False;
    }

    method CheckRefused(rs: seq<Receipt>, refused: set<Val>)
      requires refused == TerminalIds(rs, Refused)
      modifies `findings, `refusedHasNoExecutionOutcome
      ensures findings == old(findings) + Findings(RefusedOutcome, rs)
      ensures refusedHasNoExecutionOutcome == Concluded(Findings(RefusedOutcome, rs))
    {
      var ok := true;
      for i := 0 to |rs|
        invariant findings == old(findings) + Upto(RefusedOutcome, rs, i)
        invariant ok <==> Upto(RefusedOutcome, rs, i) == []
      {
        if rs[i].kind == ExecutionOutcome && rs[i].terminalRef in refused {
          ok := false;
          Fail(OutcomeAfterRefused, i);
        }
      }
      refusedHasNoExecutionOutcome := if ok then True else False;
    }

    method CheckOutcomeLinks(rs: seq<Receipt>, refused: set<Val>)
      requires refused == TerminalIds(rs, Refused)
      modifies `findings, `outcomeLinksAdmittedTerminal
      ensures findings == old(findings) + Findings(OutcomeLink, rs)
      ensures outcomeLinksAdmittedTerminal == Concluded(Findings(OutcomeLink, rs))
    {
      var ok, admitted := true, TerminalIds(rs, Admitted);
      for i := 0 to |rs|
        invariant findings == old(findings) + Upto(OutcomeLink, rs, i)
        invariant ok <==> Upto(OutcomeLink, rs, i) == []
      {
        if rs[i].kind == ExecutionOutcome {
          if !Named(rs[i].terminalRef) {
            ok := false;
            Fail(MissingTerminalRef, i);
          } else if rs[i].terminalRef !in admitted && rs[i].terminalRef !in refused {
            ok := false;
            Fail(TerminalRefUnresolved, i);
          }
        }
      }
      outcomeLinksAdmittedTerminal := if ok then True else False;
    }

    /** `verify_deferred_sequence`: every check runs, whatever the others found. */
    method Verify(rs: seq<Receipt>)
      requires findings == []
      modifies this
      ensures findings == AllFindings(rs)
      ensures Passed() <==> AllPassed(rs)
      ensures Concludes(rs)
      ensures receiptGapDisclosed == if rs != [] && HasKind(rs, ReceiptGap) then True else False
    {
      hide Findings, SequenceIdFindings, ConditionFindings, EventFindings, TerminalFindings, IdentityFindings,
           LinkageFindings, TerminalStageFindings;
      if rs == [] {
        RefuseEmpty();
        return;
      }
      VerifyIdentity(rs);
      VerifyLinkage(rs);
      VerifyTerminals(rs);
      FirstMeans(rs, ReceiptGap);
      receiptGapDisclosed := if First(rs, ReceiptGap).Some? then True else False;
    }

    method RefuseEmpty()
      modifies this
      ensures findings == old(findings) + [Whole(EmptyOrMalformed)]
      ensures eventPresence == sequenceIdContinuity == predecessorLinkage == deferReceiptLinkage == False
      ensures conditionReceiptLinkage == operationDigestContinuity == responseExpiryHonoured == False
      ensures terminalStatePresent == terminalDispositionValid == refusedHasNoExecutionOutcome == False
      ensures outcomeLinksAdmittedTerminal == replayClean == individualReceiptsValid == receiptGapDisclosed == False
    {
      FailWhole(EmptyOrMalformed);
      RefuseLinks();
      RefuseOutcomes();
    }

    method RefuseLinks()
      modifies `eventPresence, `sequenceIdContinuity, `predecessorLinkage, `deferReceiptLinkage,
               `conditionReceiptLinkage, `operationDigestContinuity, `responseExpiryHonoured
      ensures eventPresence == sequenceIdContinuity == predecessorLinkage == deferReceiptLinkage == False
      ensures conditionReceiptLinkage == operationDigestContinuity == responseExpiryHonoured == False
    {
      eventPresence, sequenceIdContinuity, predecessorLinkage := False, False, False;
      deferReceiptLinkage, conditionReceiptLinkage := False, False;
      operationDigestContinuity, responseExpiryHonoured := False, False;
    }

    method RefuseOutcomes()
      modifies `terminalStatePresent, `terminalDispositionValid, `refusedHasNoExecutionOutcome,
               `outcomeLinksAdmittedTerminal, `replayClean, `individualReceiptsValid, `receiptGapDisclosed
      ensures terminalStatePresent == terminalDispositionValid == refusedHasNoExecutionOutcome == False
      ensures outcomeLinksAdmittedTerminal == replayClean == individualReceiptsValid == receiptGapDisclosed == False
    {
      terminalStatePresent, terminalDispositionValid := False, False;
      refusedHasNoExecutionOutcome, outcomeLinksAdmittedTerminal := False, False;
      replayClean, individualReceiptsValid, receiptGapDisclosed := False, False, False;
    }

    method VerifyIdentity(rs: seq<Receipt>)
      modifies `findings, `replayClean, `individualReceiptsValid, `eventPresence, `sequenceIdContinuity
      ensures findings == old(findings) + IdentityFindings(rs)
      ensures replayClean == Concluded(Findings(Replay, rs))
      ensures individualReceiptsValid == Concluded(Findings(Individual, rs))
      ensures eventPresence == Concluded(EventFindings(rs))
      ensures sequenceIdContinuity == Concluded(SequenceIdFindings(rs))
    {
      hide Findings, SequenceIdFindings;
      CheckReplay(rs);
      CheckIndividual(rs);
      eventPresence := True;
      if First(rs, DeferRequest).None? {
        FailWhole(NoDeferRequest);
        eventPresence := False;
      }
      CheckSequenceIds(rs);
    }

    method VerifyLinkage(rs: seq<Receipt>)
      requires rs != []
      modifies `findings, `predecessorLinkage, `deferReceiptLinkage, `conditionReceiptLinkage,
               `operationDigestContinuity, `responseExpiryHonoured
      ensures findings == old(findings) + LinkageFindings(rs)
      ensures predecessorLinkage == Concluded(Findings(Predecessor, rs))
      ensures deferReceiptLinkage == Concluded(Findings(DeferLink, rs))
      ensures conditionReceiptLinkage == Concluded(ConditionFindings(rs))
      ensures operationDigestContinuity == Concluded(Findings(OperationDigest, rs))
      ensures responseExpiryHonoured == Concluded(Findings(Expiry, rs))
    {
      hide Findings, ConditionFindings;
      CheckPredecessors(rs);
      CheckDeferLinks(rs);
      CheckConditionLinks(rs);
      CheckOperationDigests(rs);
      CheckExpiry(rs);
    }

    method VerifyTerminals(rs: seq<Receipt>)
      modifies `findings, `terminalStatePresent, `terminalDispositionValid, `refusedHasNoExecutionOutcome,
               `outcomeLinksAdmittedTerminal
      ensures findings == old(findings) + TerminalStageFindings(rs)
      ensures terminalStatePresent == Concluded(TerminalFindings(rs))
      ensures terminalDispositionValid == Concluded(Findings(DispositionValid, rs))
      ensures refusedHasNoExecutionOutcome == Concluded(Findings(RefusedOutcome, rs))
      ensures outcomeLinksAdmittedTerminal == Concluded(Findings(OutcomeLink, rs))
    {
      hide Findings;
      terminalStatePresent := True;
      if First(rs, TerminalAdmission).None? {
        terminalStatePresent := False;
        FailWhole(NoTerminalAdmission);
      }
      CheckDispositions(rs);
      var refused := TerminalIds(rs, Refused);
      CheckRefused(rs, refused);
      CheckOutcomeLinks(rs, refused);
    }
  }

  function IdentityFindings(rs: seq<Receipt>): seq<Finding> {
    Findings(Replay, rs) + Findings(Individual, rs) + EventFindings(rs) + SequenceIdFindings(rs)
  }

  function LinkageFindings(rs: seq<Receipt>): seq<Finding> {
    Findings(Predecessor, rs) + Findings(DeferLink, rs) + ConditionFindings(rs) + Findings(OperationDigest, rs)
    + Findings(Expiry, rs)
  }

  function TerminalStageFindings(rs: seq<Receipt>): seq<Finding> {
    TerminalFindings(rs) + Findings(DispositionValid, rs) + Findings(RefusedOutcome, rs) + Findings(OutcomeLink, rs)
  }

  /** All findings, in the order of the checks. */
  function AllFindings(rs: seq<Receipt>): seq<Finding> {
    if rs == [] then [Whole(EmptyOrMalformed)]
    else IdentityFindings(rs) + LinkageFindings(rs) + TerminalStageFindings(rs)
  }

  /** Every one of the thirteen conclusions is drawn. */
  predicate AllPassed(rs: seq<Receipt>) {
    && rs != [] && Findings(Replay, rs) == [] && Findings(Individual, rs) == [] && EventFindings(rs) == []
    && SequenceIdFindings(rs) == [] && Findings(Predecessor, rs) == [] && Findings(DeferLink, rs) == []
    && ConditionFindings(rs) == [] && Findings(OperationDigest, rs) == [] && Findings(Expiry, rs) == []
    && TerminalFindings(rs) == [] && Findings(DispositionValid, rs) == [] && Findings(RefusedOutcome, rs) == []
    && Findings(OutcomeLink, rs) == []
  }

  /** A sequence passes exactly when no finding was recorded. */
  lemma PassedIffNoFindings(rs: seq<Receipt>)
    ensures AllPassed(rs) <==> AllFindings(rs) == []
  {
    hide Findings, EventFindings, SequenceIdFindings, ConditionFindings, TerminalFindings;
  }

  // ----- what a passing sequence guarantees -----

  lemma PassedReports(rs: seq<Receipt>, c: Check, i: nat)
    requires AllPassed(rs) && i < |rs|
    ensures Report(c, rs, i) == []
  {
    hide Report;
    Silent(c, rs, |rs|);
  }

  /** Receipt ids are pairwise distinct. */
  lemma DistinctIds(rs: seq<Receipt>, i: nat, j: nat)
    requires AllPassed(rs) && i < j < |rs|
    ensures rs[i].id.Text? && rs[i].id.s != "" && rs[j].id.Text? && rs[j].id.s != "" && rs[i].id != rs[j].id
  {
    hide AllPassed;
    PassedReports(rs, Replay, i);
    PassedReports(rs, Replay, j);
    assert !IdSeen(rs, j, rs[j].id);
  }

  /** The position of the receipt an id names: the last one, as in an index built by assignment. */
  function Position(rs: seq<Receipt>, id: Val): Option<nat> {
    if rs == [] then None
    else if rs[|rs| - 1].id == id then Some(|rs| - 1) else Position(rs[..|rs| - 1], id)
  }

  lemma {:induction false} PositionMeans(rs: seq<Receipt>, id: Val, p: nat)
    requires p < |rs| && rs[p].id == id && forall j :: p < j < |rs| ==> rs[j].id != id
    ensures Position(rs, id) == Some(p)
  {
    if p < |rs| - 1 { PositionMeans(rs[..|rs| - 1], id, p); }
  }

  /** The positions visited by following predecessor references from `i`, ending at a defer_request
      or at the first receipt; None where a reference does not lead strictly back. */
  function Trace(rs: seq<Receipt>, i: nat): Option<seq<nat>>
    requires i < |rs|
    decreases i
  {
    if i == 0 || rs[i].kind == DeferRequest then Some([i])
    else
      var p :- Position(rs, rs[i].predecessorRef);
      if p >= i then None
      else
        var rest :- Trace(rs, p);
        Some([i] + rest)
  }

  /** The nearest defer_request at or before a position, or the first receipt. */
  function NearestDefer(rs: seq<Receipt>, i: nat): (d: nat)
    requires i < |rs|
    ensures d <= i && (d == 0 || rs[d].kind == DeferRequest)
    ensures forall k :: d < k <= i ==> rs[k].kind != DeferRequest
  {
    if i == 0 || rs[i].kind == DeferRequest then i else NearestDefer(rs, i - 1)
  }

  function Down(i: nat, d: nat): (r: seq<nat>)
    requires d <= i
    ensures |r| == i - d + 1 && forall k :: 0 <= k < |r| ==> r[k] == i - k
  {
    if i == d then [i] else [i] + Down(i - 1, d)
  }

  lemma PredecessorFound(rs: seq<Receipt>, i: nat)
    requires AllPassed(rs) && 0 < i < |rs| && rs[i].kind != DeferRequest
    ensures Position(rs, rs[i].predecessorRef) == Some(i - 1)
  {
    hide AllPassed, Position;
    PassedReports(rs, Predecessor, i);
    forall j | i - 1 < j < |rs| ensures rs[j].id != rs[i - 1].id { DistinctIds(rs, i - 1, j); }
    PositionMeans(rs, rs[i].predecessorRef, i - 1);
  }

  /** From any position, predecessor references step back one receipt at a time, down to the nearest
      defer_request or the first receipt. */
  lemma {:induction false} TraceStepsBack(rs: seq<Receipt>, i: nat)
    requires AllPassed(rs) && i < |rs|
    ensures Trace(rs, i) == Some(Down(i, NearestDefer(rs, i)))
  {
    hide AllPassed, Position;
    if i > 0 && rs[i].kind != DeferRequest {
      PredecessorFound(rs, i);
      TraceStepsBack(rs, i - 1);
    }
  }

  /** Every execution outcome names exactly one receipt: a terminal admission, and an admitted one. */
  lemma OutcomeResolves(rs: seq<Receipt>, i: nat)
    requires AllPassed(rs) && i < |rs| && rs[i].kind == ExecutionOutcome
    ensures exists t :: 0 <= t < |rs| && rs[t].kind == TerminalAdmission && rs[t].disposition == Admitted
                        && rs[t].id == rs[i].terminalRef
                        && forall j :: 0 <= j < |rs| && rs[j].id == rs[i].terminalRef ==> j == t
  {
    hide AllPassed;
    PassedReports(rs, OutcomeLink, i);
    PassedReports(rs, RefusedOutcome, i);
    assert rs[i].terminalRef in TerminalIds(rs, Admitted);
    var r :| r in rs && IsTerminal(r, Admitted) && r.id == rs[i].terminalRef;
    var t :| 0 <= t < |rs| && rs[t] == r;
    forall j | 0 <= j < |rs| && rs[j].id == rs[i].terminalRef ensures j == t {
      if j < t { DistinctIds(rs, j, t); } else if t < j { DistinctIds(rs, t, j); }
    }
  }

  /** There is a defer_request and a terminal admission; every terminal admission and outcome refers
      to the first defer_request, and there is a condition response, the first of which every
      reevaluation and terminal admission refers to. No response expired if anything was
      reevaluated. */
  lemma LinksAgree(rs: seq<Receipt>, i: nat)
    requires AllPassed(rs) && i < |rs|
    ensures First(rs, DeferRequest).Some? && First(rs, TerminalAdmission).Some? && First(rs, ConditionResponse).Some?
    ensures rs[i].kind in {TerminalAdmission, ExecutionOutcome} ==> rs[i].deferRef == First(rs, DeferRequest).value.id
    ensures rs[i].kind in {Reevaluation, TerminalAdmission} ==>
      rs[i].conditionRef == First(rs, ConditionResponse).value.id
    ensures rs[i].kind == ConditionResponse && rs[i].expired ==> !HasKind(rs, Reevaluation)
    ensures rs[i].kind == TerminalAdmission ==> rs[i].disposition in {Admitted, Refused}
  {
    hide Upto, Findings;
    PassedReports(rs, DeferLink, i);
    PassedReports(rs, ConditionLink, i);
    PassedReports(rs, Expiry, i);
    PassedReports(rs, DispositionValid, i);
    FirstMeans(rs, Reevaluation);
    FirstMeans(rs, DeferRequest);
    FirstMeans(rs, ConditionResponse);
    assert ConditionFindings(rs) == [];
    hide AllPassed, ConditionFindings;
    if First(rs, DeferRequest).Some? { FirstNamed(rs, DeferRequest); }
    if First(rs, ConditionResponse).Some? { FirstNamed(rs, ConditionResponse); }
  }

  lemma FirstNamed(rs: seq<Receipt>, kind: Kind)
    requires AllPassed(rs) && First(rs, kind).Some?
    ensures Named(First(rs, kind).value.id)
  {
    hide AllPassed;
    FirstMeans(rs, kind);
    var i :| 0 <= i < |rs| && rs[i] == First(rs, kind).value;
    PassedReports(rs, Replay, i);
  }

  /** All receipts that carry a textual sequence id carry the same one. */
  lemma OneSequenceId(rs: seq<Receipt>, i: nat, j: nat)
    requires AllPassed(rs) && i < |rs| && j < |rs| && rs[i].sequenceId.Text? && rs[j].sequenceId.Text?
    ensures rs[i].sequenceId == rs[j].sequenceId
  {
    hide Findings, ConditionFindings;
    var ids := SequenceIds(rs);
    assert rs[i] in rs && rs[j] in rs;
    assert rs[i].sequenceId.s in ids && rs[j].sequenceId.s in ids && |ids| == 1;
    var s :| s in ids;
    assert |ids - {s}| == 0;
  }
}
