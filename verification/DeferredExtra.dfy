/** `deferred_sequence.py`: what a passing sequence may hold beside its first defer_request. The
    predecessor check passes over every defer_request and leaves a second one to the check of the
    sequence ids, which catches it only when its id is another one. */
module DeferredExtra {
  import opened JsonValue
  import opened DeferredSequence

  // ----- a sequence with one more defer_request -----

  /** The receipt after the new one refers to it, as the predecessor check wants. */
  function Relinked(b: seq<Receipt>, id: Val): (r: seq<Receipt>)
    ensures |r| == |b|
  {
    if b == [] || b[0].kind == DeferRequest then b else [b[0].(predecessorRef := id)] + b[1..]
  }

  function WithDefer(a: seq<Receipt>, d: Receipt, b: seq<Receipt>): (r: seq<Receipt>)
    ensures |r| == |a| + 1 + |b|
  {
    a + [d] + Relinked(b, d.id)
  }

  /** The two receipts differ in their predecessor references at most. */
  predicate Alike(r: Receipt, s: Receipt) { r == s.(predecessorRef := r.predecessorRef) }

  lemma Placed(a: seq<Receipt>, d: Receipt, b: seq<Receipt>)
    ensures var r := WithDefer(a, d, b);
      && (forall k :: 0 <= k < |a| ==> r[k] == (a + b)[k])
      && r[|a|] == d
      && (forall k :: |a| <= k < |a + b| ==> Alike(r[k + 1], (a + b)[k]))
      && (forall k :: |a| < k < |a + b| ==> r[k + 1] == (a + b)[k])
  {}

  // ----- what the checks look at besides the receipt itself -----

  datatype Context = Context(
    defer: Option<Val>, condition: Option<Val>, reevaluated: bool, terminated: bool, admitted: set<Val>,
    refused: set<Val>)

  function FirstId(rs: seq<Receipt>, kind: Kind): Option<Val> {
    if rs == [] then None else if rs[0].kind == kind then Some(rs[0].id) else FirstId(rs[1..], kind)
  }

  function ContextOf(rs: seq<Receipt>): Context {
    Context(FirstId(rs, DeferRequest), FirstId(rs, ConditionResponse), FirstId(rs, Reevaluation).Some?,
            FirstId(rs, TerminalAdmission).Some?, TerminalIds(rs, Admitted), TerminalIds(rs, Refused))
  }

  predicate LinkFits(ref: Val, target: Option<Val>) {
    Named(ref) && (target.Some? && target.value != Missing ==> ref == target.value)
  }

  /** The receipt meets every check but those of its id and its predecessor. */
  predicate Fits(x: Context, r: Receipt) {
    && r.valid
    && (r.kind.TerminalAdmission? || r.kind.ExecutionOutcome? ==> LinkFits(r.deferRef, x.defer))
    && (r.kind.Reevaluation? || r.kind.TerminalAdmission? ==> LinkFits(r.conditionRef, x.condition))
    && (r.kind.DeferRequest? || r.kind.Reevaluation? || r.kind.TerminalAdmission? || r.kind.ExecutionOutcome? ==>
          Named(r.operationDigest))
    && (r.kind.ConditionResponse? && r.expired ==> !x.reevaluated)
    && (r.kind.TerminalAdmission? ==> r.disposition != OtherDisposition)
    && (r.kind.ExecutionOutcome? ==>
          Named(r.terminalRef) && r.terminalRef in x.admitted && r.terminalRef !in x.refused)
  }

  predicate ContextFits(x: Context) {
    x.defer.Some? && x.terminated && (x.reevaluated || x.terminated ==> x.condition.Some?)
  }

  predicate IdsDistinct(rs: seq<Receipt>) {
    && (forall i :: 0 <= i < |rs| ==> Named(rs[i].id))
    && (forall i, j :: 0 <= i < j < |rs| ==> rs[i].id != rs[j].id)
  }

  predicate Linked(rs: seq<Receipt>) {
    forall i :: 0 < i < |rs| && rs[i].kind != DeferRequest ==>
      Named(rs[i].predecessorRef) && rs[i].predecessorRef == rs[i - 1].id
  }

  lemma {:induction false} FirstIdMeans(rs: seq<Receipt>, kind: Kind)
    ensures FirstId(rs, kind) == match First(rs, kind) case Some(r) => Some(r.id) case None => None
  {
    if rs != [] { FirstIdMeans(rs[1..], kind); }
  }

  lemma FitsMeans(rs: seq<Receipt>, i: nat)
    requires i < |rs|
    ensures Fits(ContextOf(rs), rs[i]) <==>
      && Report(Individual, rs, i) == [] && Report(DeferLink, rs, i) == [] && Report(ConditionLink, rs, i) == []
      && Report(OperationDigest, rs, i) == [] && Report(Expiry, rs, i) == []
      && Report(DispositionValid, rs, i) == [] && Report(RefusedOutcome, rs, i) == []
      && Report(OutcomeLink, rs, i) == []
  {
    FirstIdMeans(rs, DeferRequest);
    FirstIdMeans(rs, ConditionResponse);
    FirstIdMeans(rs, Reevaluation);
    hide First, FirstId, TerminalIds;
  }

  lemma IdsMean(rs: seq<Receipt>)
    ensures IdsDistinct(rs) <==> Findings(Replay, rs) == []
  {
    Silent(Replay, rs, |rs|);
    if IdsDistinct(rs) {
      forall i | 0 <= i < |rs| ensures Report(Replay, rs, i) == [] { assert !IdSeen(rs, i, rs[i].id); }
    } else if forall i :: 0 <= i < |rs| ==> Report(Replay, rs, i) == [] {
      forall i, j | 0 <= i < j < |rs| ensures rs[i].id != rs[j].id {
        assert Report(Replay, rs, j) == [];
        assert !IdSeen(rs, j, rs[j].id);
      }
      forall i | 0 <= i < |rs| ensures Named(rs[i].id) { assert Report(Replay, rs, i) == []; }
    }
  }

  lemma LinkedMeans(rs: seq<Receipt>)
    ensures Linked(rs) <==> Findings(Predecessor, rs) == []
  {
    Silent(Predecessor, rs, |rs|);
    if forall i :: 0 <= i < |rs| ==> Report(Predecessor, rs, i) == [] {
      forall i | 0 < i < |rs| && rs[i].kind != DeferRequest
        ensures Named(rs[i].predecessorRef) && rs[i].predecessorRef == rs[i - 1].id
      {
        assert Report(Predecessor, rs, i) == [];
      }
    }
  }

  /** Passing, told without the loops. */
  lemma PassedDeclaratively(rs: seq<Receipt>)
    ensures AllPassed(rs) <==>
      && IdsDistinct(rs) && Linked(rs) && |SequenceIds(rs)| == 1 && ContextFits(ContextOf(rs))
      && forall i :: 0 <= i < |rs| ==> Fits(ContextOf(rs), rs[i])
  {
    IdsMean(rs);
    LinkedMeans(rs);
    FirstIdMeans(rs, DeferRequest);
    FirstIdMeans(rs, ConditionResponse);
    FirstIdMeans(rs, Reevaluation);
    FirstIdMeans(rs, TerminalAdmission);
    ChecksSilent(rs);
    hide IdsDistinct, Linked, SequenceIds, Fits, Findings, First, TerminalIds;
    assert rs == [] ==> FirstId(rs, DeferRequest).None?;
    var needed := First(rs, Reevaluation).Some? || First(rs, TerminalAdmission).Some?;
    assert ConditionFindings(rs) == [] <==>
      Findings(ConditionLink, rs) == [] && !(needed && First(rs, ConditionResponse).None?);
  }

  lemma ChecksSilent(rs: seq<Receipt>)
    ensures (forall i :: 0 <= i < |rs| ==> Fits(ContextOf(rs), rs[i])) <==>
      && Findings(Individual, rs) == [] && Findings(DeferLink, rs) == [] && Findings(ConditionLink, rs) == []
      && Findings(OperationDigest, rs) == [] && Findings(Expiry, rs) == []
      && Findings(DispositionValid, rs) == [] && Findings(RefusedOutcome, rs) == []
      && Findings(OutcomeLink, rs) == []
  {
    hide Upto, Report, Fits, ContextOf;
    Silent(Individual, rs, |rs|);
    Silent(DeferLink, rs, |rs|);
    Silent(ConditionLink, rs, |rs|);
    Silent(OperationDigest, rs, |rs|);
    Silent(Expiry, rs, |rs|);
    Silent(DispositionValid, rs, |rs|);
    Silent(RefusedOutcome, rs, |rs|);
    Silent(OutcomeLink, rs, |rs|);
    forall i | 0 <= i < |rs|
      ensures Fits(ContextOf(rs), rs[i]) <==>
        && Report(Individual, rs, i) == [] && Report(DeferLink, rs, i) == [] && Report(ConditionLink, rs, i) == []
        && Report(OperationDigest, rs, i) == [] && Report(Expiry, rs, i) == []
        && Report(DispositionValid, rs, i) == [] && Report(RefusedOutcome, rs, i) == []
        && Report(OutcomeLink, rs, i) == []
    {
      FitsMeans(rs, i);
    }
  }

  // ----- what the new receipt changes -----

  lemma {:induction false} FirstIdOfBoth(a: seq<Receipt>, b: seq<Receipt>, kind: Kind)
    ensures FirstId(a + b, kind) == if FirstId(a, kind).Some? then FirstId(a, kind) else FirstId(b, kind)
  {
    if a == [] {
      assert a + b == b;
    } else {
      assert (a + b)[1..] == a[1..] + b;
      FirstIdOfBoth(a[1..], b, kind);
    }
  }

  lemma FirstIdKept(a: seq<Receipt>, d: Receipt, b: seq<Receipt>, kind: Kind)
    ensures d.kind != kind || FirstId(a, kind).Some? ==>
      FirstId(WithDefer(a, d, b), kind) == FirstId(a + b, kind)
    ensures d.kind == kind && FirstId(a, kind).None? ==> FirstId(WithDefer(a, d, b), kind) == Some(d.id)
  {
    var more := Relinked(b, d.id);
    assert b != [] ==> more[1..] == b[1..];
    assert FirstId(more, kind) == FirstId(b, kind);
    assert ([d] + more)[1..] == more;
    FirstIdOfBoth(a, b, kind);
    FirstIdOfBoth(a, [d] + more, kind);
    assert WithDefer(a, d, b) == a + ([d] + more);
  }

  lemma TerminalsKept(a: seq<Receipt>, d: Receipt, b: seq<Receipt>, x: Disposition)
    requires d.kind == DeferRequest
    ensures TerminalIds(WithDefer(a, d, b), x) == TerminalIds(a + b, x)
  {
    var r, rs := WithDefer(a, d, b), a + b;
    Placed(a, d, b);
    hide WithDefer;
    forall v | v in TerminalIds(rs, x) ensures v in TerminalIds(r, x) {
      var k :| 0 <= k < |rs| && IsTerminal(rs[k], x) && rs[k].id == v;
      var at := if k < |a| then k else k + 1;
      assert r[at] in r && IsTerminal(r[at], x) && r[at].id == v;
    }
    forall v | v in TerminalIds(r, x) ensures v in TerminalIds(rs, x) {
      var k :| 0 <= k < |r| && IsTerminal(r[k], x) && r[k].id == v;
      var at := if k < |a| then k else k - 1;
      assert rs[at] in rs && IsTerminal(rs[at], x) && rs[at].id == v;
    }
  }

  /** The context changes in its first defer_request at most. */
  lemma ContextKept(a: seq<Receipt>, d: Receipt, b: seq<Receipt>)
    requires d.kind == DeferRequest
    ensures var x, y := ContextOf(a + b), ContextOf(WithDefer(a, d, b));
      y == x.(defer := if FirstId(a, DeferRequest).Some? then x.defer else Some(d.id))
  {
    hide WithDefer, FirstId, TerminalIds;
    FirstIdKept(a, d, b, DeferRequest);
    FirstIdKept(a, d, b, ConditionResponse);
    FirstIdKept(a, d, b, Reevaluation);
    FirstIdKept(a, d, b, TerminalAdmission);
    TerminalsKept(a, d, b, Admitted);
    TerminalsKept(a, d, b, Refused);
  }

  lemma SequenceIdsMore(a: seq<Receipt>, d: Receipt, b: seq<Receipt>)
    ensures SequenceIds(WithDefer(a, d, b))
         == SequenceIds(a + b) + if d.sequenceId.Text? then {d.sequenceId.s} else {}
  {
    var r, rs := WithDefer(a, d, b), a + b;
    Placed(a, d, b);
    hide WithDefer;
    forall s | s in SequenceIds(rs) ensures s in SequenceIds(r) {
      var k :| 0 <= k < |rs| && rs[k].sequenceId == Text(s);
      var at := if k < |a| then k else k + 1;
      assert r[at] in r && r[at].sequenceId == Text(s);
    }
    assert d in r;
    forall s | s in SequenceIds(r) ensures s in SequenceIds(rs) || d.sequenceId == Text(s) {
      var k :| 0 <= k < |r| && r[k].sequenceId == Text(s);
      if k != |a| {
        var at := if k < |a| then k else k - 1;
        assert rs[at] in rs && rs[at].sequenceId == Text(s);
      }
    }
  }

  lemma OneMoreId(ids: set<string>, s: string)
    requires |ids| == 1
    ensures |ids + {s}| == 1 <==> s in ids
  {
    if s in ids {
      assert ids + {s} == ids;
    } else {
      assert |ids + {s}| == 2;
    }
  }

  lemma IdsMore(a: seq<Receipt>, d: Receipt, b: seq<Receipt>)
    requires IdsDistinct(a + b)
    ensures IdsDistinct(WithDefer(a, d, b)) <==>
      Named(d.id) && forall k :: 0 <= k < |a + b| ==> (a + b)[k].id != d.id
  {
    var r, rs := WithDefer(a, d, b), a + b;
    Placed(a, d, b);
    hide WithDefer;
    assert forall k :: 0 <= k < |r| && k != |a| ==> r[k].id == rs[if k < |a| then k else k - 1].id;
    if IdsDistinct(r) {
      forall k | 0 <= k < |rs| ensures rs[k].id != d.id {
        var at := if k < |a| then k else k + 1;
        assert r[at].id == rs[k].id && r[|a|] == d;
      }
    }
  }

  lemma LinkedMore(a: seq<Receipt>, d: Receipt, b: seq<Receipt>)
    requires Linked(a + b) && d.kind == DeferRequest && Named(d.id)
    ensures Linked(WithDefer(a, d, b))
  {
    var r, rs := WithDefer(a, d, b), a + b;
    Placed(a, d, b);
    forall i | 0 < i < |r| && r[i].kind != DeferRequest
      ensures Named(r[i].predecessorRef) && r[i].predecessorRef == r[i - 1].id
    {
      if i < |a| {
        assert rs[i] == r[i] && rs[i - 1] == r[i - 1];
      } else if i == |a| + 1 {
        assert r[i] == Relinked(b, d.id)[0] && r[i - 1] == d;
      } else if i > |a| + 1 {
        assert rs[i - 1] == r[i] && Alike(r[i - 1], rs[i - 2]);
      }
    }
  }

  // ----- exactly which extra defer_request passes -----

  /** Nothing links the extra receipt to the rest: it needs a fresh id, to be valid on its own with an
      operation digest, and either the one sequence id or none that is a text. */
  predicate Unnoticed(rs: seq<Receipt>, d: Receipt) {
    && Named(d.id) && (forall k :: 0 <= k < |rs| ==> rs[k].id != d.id)
    && d.valid && Named(d.operationDigest)
    && (d.sequenceId.Text? ==> d.sequenceId.s in SequenceIds(rs))
  }

  /** A defer_request put into a passing sequence leaves it passing exactly when an earlier one stands
      before it and it is unnoticed; its own references are never read. */
  lemma ExtraDeferExactly(a: seq<Receipt>, d: Receipt, b: seq<Receipt>)
    requires AllPassed(a + b) && d.kind == DeferRequest
    ensures AllPassed(WithDefer(a, d, b)) <==> HasKind(a, DeferRequest) && Unnoticed(a + b, d)
  {
    hide *;
    if HasKind(a, DeferRequest) && Unnoticed(a + b, d) { UnnoticedPasses(a, d, b); }
    if AllPassed(WithDefer(a, d, b)) {
      PassedUnnoticed(a, d, b);
      if !HasKind(a, DeferRequest) { FirstDeferFixed(a, d, b); }
    }
  }

  lemma UnnoticedPasses(a: seq<Receipt>, d: Receipt, b: seq<Receipt>)
    requires AllPassed(a + b) && d.kind == DeferRequest && HasKind(a, DeferRequest) && Unnoticed(a + b, d)
    ensures AllPassed(WithDefer(a, d, b))
  {
    var r, rs := WithDefer(a, d, b), a + b;
    PassedDeclaratively(rs);
    PassedDeclaratively(r);
    hide AllPassed, SequenceIds, ContextOf, WithDefer, First, FirstId, IdsDistinct, Linked;
    IdsMore(a, d, b);
    SequenceIdsMore(a, d, b);
    if d.sequenceId.Text? { OneMoreId(SequenceIds(rs), d.sequenceId.s); }
    LinkedMore(a, d, b);
    SameContext(a, d, b);
    FitsKept(a, d, b);
  }

  lemma SameContext(a: seq<Receipt>, d: Receipt, b: seq<Receipt>)
    requires d.kind == DeferRequest && HasKind(a, DeferRequest)
    ensures ContextOf(WithDefer(a, d, b)) == ContextOf(a + b)
  {
    ContextKept(a, d, b);
    FirstMeans(a, DeferRequest);
    FirstIdMeans(a, DeferRequest);
    hide WithDefer, First, FirstId, TerminalIds;
  }

  lemma PassedUnnoticed(a: seq<Receipt>, d: Receipt, b: seq<Receipt>)
    requires AllPassed(a + b) && d.kind == DeferRequest && AllPassed(WithDefer(a, d, b))
    ensures Unnoticed(a + b, d)
  {
    var r, rs := WithDefer(a, d, b), a + b;
    PassedDeclaratively(rs);
    PassedDeclaratively(r);
    Placed(a, d, b);
    hide AllPassed, SequenceIds, ContextOf, WithDefer, IdsDistinct, Linked;
    IdsMore(a, d, b);
    SequenceIdsMore(a, d, b);
    if d.sequenceId.Text? { OneMoreId(SequenceIds(rs), d.sequenceId.s); }
    assert Fits(ContextOf(r), r[|a|]);
  }

  lemma FitsKept(a: seq<Receipt>, d: Receipt, b: seq<Receipt>)
    requires forall k :: 0 <= k < |a + b| ==> Fits(ContextOf(a + b), (a + b)[k])
    requires ContextOf(WithDefer(a, d, b)) == ContextOf(a + b)
    requires Fits(ContextOf(a + b), d)
    ensures forall k :: 0 <= k < |WithDefer(a, d, b)| ==> Fits(ContextOf(a + b), WithDefer(a, d, b)[k])
  {
    var r, rs, x := WithDefer(a, d, b), a + b, ContextOf(a + b);
    Placed(a, d, b);
    hide WithDefer, ContextOf;
    forall k | 0 <= k < |r| ensures Fits(x, r[k]) {
      if k < |a| {
        assert Fits(x, rs[k]);
      } else if k > |a| {
        assert Alike(r[k], rs[k - 1]) && Fits(x, rs[k - 1]);
      }
    }
  }

  /** The first defer_request cannot be put before the others: the terminal admission refers to the one
      that was first. */
  lemma FirstDeferFixed(a: seq<Receipt>, d: Receipt, b: seq<Receipt>)
    requires AllPassed(a + b) && d.kind == DeferRequest && !HasKind(a, DeferRequest)
    ensures !AllPassed(WithDefer(a, d, b))
  {
    var r, rs := WithDefer(a, d, b), a + b;
    if AllPassed(r) {
      hide *;
      var t, f := TerminalNamesFirst(rs);
      NotBefore(a, b, f);
      PlacedAt(a, d, b, t);
      PlacedAt(a, d, b, f);
      FirstDeferOf(a, d, b);
      LinksAgree(r, if t < |a| then t else t + 1);
      DistinctIds(r, |a|, f + 1);
    }
  }

  lemma TerminalNamesFirst(rs: seq<Receipt>) returns (t: nat, f: nat)
    requires AllPassed(rs)
    ensures t < |rs| && rs[t].kind == TerminalAdmission && f < |rs| && rs[f].kind == DeferRequest
    ensures rs[t].deferRef == rs[f].id
  {
    assert rs != [];
    LinksAgree(rs, 0);
    FirstMeans(rs, TerminalAdmission);
    FirstMeans(rs, DeferRequest);
    hide AllPassed, First;
    t :| 0 <= t < |rs| && rs[t].kind == TerminalAdmission;
    f :| 0 <= f < |rs| && rs[f] == First(rs, DeferRequest).value && rs[f].kind == DeferRequest;
    LinksAgree(rs, t);
  }

  lemma PlacedAt(a: seq<Receipt>, d: Receipt, b: seq<Receipt>, k: nat)
    requires k < |a + b|
    ensures var r, s := WithDefer(a, d, b)[if k < |a| then k else k + 1], (a + b)[k];
      r.id == s.id && r.kind == s.kind && r.deferRef == s.deferRef
    ensures WithDefer(a, d, b)[|a|] == d
  {
    Placed(a, d, b);
    hide WithDefer;
  }

  lemma NotBefore(a: seq<Receipt>, b: seq<Receipt>, f: nat)
    requires f < |a + b| && (a + b)[f].kind == DeferRequest
    ensures HasKind(a, DeferRequest) || f >= |a|
  {}

  lemma FirstDeferOf(a: seq<Receipt>, d: Receipt, b: seq<Receipt>)
    requires d.kind == DeferRequest && !HasKind(a, DeferRequest)
    ensures var first := First(WithDefer(a, d, b), DeferRequest); first.Some? && first.value.id == d.id
  {
    FirstIdKept(a, d, b, DeferRequest);
    FirstMeans(a, DeferRequest);
    FirstIdMeans(a, DeferRequest);
    FirstIdMeans(WithDefer(a, d, b), DeferRequest);
    hide WithDefer, First, FirstId;
  }
}
