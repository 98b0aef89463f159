/** The Kubernetes store as an object whose records are rewritten, each method proved against module Kubernetes. */
module KubernetesStore {
  import opened Text
  import opened KubernetesBody
  import opened Kubernetes
  import KubernetesRuns

  class CapabilityStore {
    var approvals: map<GrantId, Approval>
    var bindings: map<BindingId, Binding>
    var entered: seq<Entry>
    var receipts: seq<Receipt>

    constructor ()
      ensures View() == EMPTY
    {
      approvals, bindings, entered, receipts := map[], map[], [], [];
    }

    function View(): Store
      reads this
    {
      Store(approvals, bindings, entered, receipts)
    }

    /** The invariant of every run. */
    ghost predicate Valid()
      reads this
    {
      KubernetesRuns.Good(View())
    }

    /** Whatever calls were made, an approval for one exact readiness operation has entered an executor at most once. */
    lemma ReadinessOnce(i: nat, j: nat)
      requires Valid() && i < |entered| && j < |entered| && entered[i].approval == entered[j].approval
      requires entered[i].approval in approvals && KubernetesRuns.ForReadiness(approvals[entered[i].approval].body)
      ensures i == j && approvals[entered[i].approval].status != Approved
    {
      hide Intact, Classify, Proven;
    }

    method LoadApproval(id: GrantId, now: int) returns (r: Result<Approval, Code>)
      modifies this`approvals
      ensures (View(), r) == Load(old(View()), id, now)
      ensures old(Valid()) ==> Valid()
    {
      hide KubernetesRuns.Good, Intact;
      if Valid() {
        KubernetesRuns.Loads(View(), id, now);
      }
      if id !in approvals {
        return Err(NoApproval);
      }
      if !Intact(approvals[id]) {
        return Err(InvalidApproval);
      }
      var seen := Evaluate(approvals[id], now);
      approvals := approvals[id := seen];
      return Ok(seen);
    }

    method ConsumeApproval(id: GrantId, now: int) returns (r: Result<Approval, Code>)
      modifies this`approvals
      ensures (View(), r) == Consume(old(View()), id, now)
    {
      hide Intact, KubernetesRuns.Good;
      r := LoadApproval(id, now);
      if r.Err? || r.value.status == Consumed {
        return;
      }
      if r.value.status != Approved {
        return Err(InvalidApproval);
      }
      var updated := r.value.(status := Consumed);
      approvals := approvals[id := updated];
      return Ok(updated);
    }

    method RevokeApproval(id: GrantId, now: int) returns (r: Result<Approval, Code>)
      modifies this`approvals
      ensures (View(), r) == Revoke(old(View()), id, now)
      ensures old(Valid()) ==> Valid()
    {
      hide Intact, KubernetesRuns.Good;
      if Valid() {
        KubernetesRuns.Revokes(View(), id, now);
      }
      r := LoadApproval(id, now);
      if r.Err? {
        return;
      }
      if r.value.status == Expired || r.value.status == Consumed {
        return Err(InvalidApproval);
      }
      var updated := r.value.(status := Revoked);
      approvals := approvals[id := updated];
      return Ok(updated);
    }

    method CreateBinding(id: GrantId, runId: string, boundAt: int, now: int) returns (r: Result<Binding, Code>)
      modifies this`approvals, this`bindings
      ensures (View(), r) == Bind(old(View()), id, runId, boundAt, now)
      ensures old(Valid()) ==> Valid()
    {
      hide Intact, Strip, KubernetesRuns.Good;
      if Valid() {
        KubernetesRuns.Binds(View(), id, runId, boundAt, now);
      }
      var loaded := LoadApproval(id, now);
      if loaded.Err? {
        return Err(loaded.error);
      }
      if loaded.value.status != Approved {
        return Err(StatusCode(loaded.value.status));
      }
      if Blocking(View(), id) {
        return Err(ReusedSingleUse);
      }
      var run := if Strip(runId) == "" then loaded.value.runId else Strip(runId);
      var b := Binding(BindingId(id, run, boundAt), loaded.value.body, Active, false);
      bindings := bindings[b.id := b];
      return Ok(b);
    }

    method FinalizeBinding(id: BindingId, to: BindingStatus, consumes: bool) returns (r: Result<Binding, Code>)
      modifies this`bindings
      ensures (View(), r) == Finalize(old(View()), id, to, consumes)
    {
      if id !in bindings {
        return Err(NoBinding);
      }
      if bindings[id].status != Active {
        return Err(InvalidBinding);
      }
      var updated := bindings[id].(status := to, consumes := consumes);
      bindings := bindings[id := updated];
      return Ok(updated);
    }

    method WriteReceipt(receipt: Receipt) returns (out: Outcome)
      modifies this`receipts
      ensures (View(), out) == Write(old(View()), receipt)
    {
      if receipt.acceptance == PASS && (receipt.compliance != WithinScope || !receipt.verified || !receipt.executed) {
        return Raised(MintRefused);
      }
      receipts := receipts + [receipt];
      return Receipted(receipt);
    }

    method AcquireAuthority(req: Request) returns (r: Result<(Binding, Approval), Code>)
      modifies this`approvals, this`bindings
      ensures (View(), r) == Acquire(old(View()), req)
    {
      hide Intact, Strip, Load, Bind;
      if req.binding.Some? {
        var id := req.binding.value;
        if id !in bindings || bindings[id].status != Active {
          return Err(NoBinding);
        }
        var loaded := LoadApproval(id.approval, req.now);
        if loaded.Err? {
          return Err(loaded.error);
        }
        if id.runId != req.op.runId {
          return Err(NoBinding);
        }
        if loaded.value.status != Approved {
          return Err(StatusCode(loaded.value.status));
        }
        return Ok((bindings[id], loaded.value));
      }
      if req.approval.None? {
        return Err(NoApproval);
      }
      var loaded := LoadApproval(req.approval.value, req.now);
      if loaded.Err? {
        return Err(loaded.error);
      }
      var bound := CreateBinding(req.approval.value, req.op.runId, req.boundAt, req.now);
      if bound.Err? {
        return Err(bound.error);
      }
      return Ok((bound.value, loaded.value));
    }

    method ConcludeAttempt(b: Binding, a: Approval, to: BindingStatus, consumes: bool, later: int, r: Receipt)
      returns (out: Outcome)
      modifies this`approvals, this`bindings, this`receipts
      ensures (View(), out) == Conclude(old(View()), b, a, to, consumes, later, r)
    {
      hide Intact, Consume, Finalize, Write;
      var ended := FinalizeBinding(b.id, to, consumes);
      if ended.Err? {
        return Raised(ended.error);
      }
      var approval := a;
      if consumes {
        var spent := ConsumeApproval(a.id, later);
        if spent.Err? {
          return Raised(spent.error);
        }
        approval := spent.value;
      }
      out := WriteReceipt(r.(bindingStatus := to, approvalStatus := approval.status));
    }

    /** Bind, check the frozen scope, enter the executor, verify its answer, receipt it. */
    method ExecuteCapability(req: Request) returns (out: Outcome)
      modifies this
      ensures (View(), out) == Execute(old(View()), req)
      ensures old(Valid()) ==> Valid()
    {
      hide Intact, Strip, Acquire, Finalize, Conclude, Classify, ReadinessSafe, KubernetesRuns.Good;
      if Valid() {
        KubernetesRuns.Executes(View(), req);
      }
      if req.op.runId == "" {
        return Raised(InvalidRequest);
      }
      var authority := AcquireAuthority(req);
      if authority.Err? {
        return Declined(authority.error);
      }
      var (b, a) := authority.value;
      if b.body.Hashed() != a.body.Hashed() {
        var ended := FinalizeBinding(b.id, Failed, false);
        return if ended.Err? then Raised(ended.error) else Declined(Escalation);
      }
      if Classify(b.body, req.op).Some? {
        out := ConcludeAttempt(b, a, Failed, false, req.later, Blank(b, a, req.op));
        return;
      }
      entered := entered + [Entry(a.id, req.op)];
      out := ResolveAnswer(b, a, req);
    }

    method ResolveAnswer(b: Binding, a: Approval, req: Request) returns (out: Outcome)
      modifies this`approvals, this`bindings, this`receipts
      ensures (View(), out) == Resolve(old(View()), b, a, req)
    {
      hide Intact, Conclude, Classify, ReadinessSafe;
      var receipt, readiness := Blank(b, a, req.op).(withinScope := true), IsReadiness(req.op);
      match req.answer {
        case Interrupted =>
          out := ConcludeAttempt(b, a, Failed, readiness, req.later,
            receipt.(compliance := Unverified, acceptance := UNVERIFIED, verified := false));
        case Error =>
          if readiness {
            receipt := receipt.(compliance := Unverified, acceptance := UNVERIFIED, verified := false);
          }
          out := ConcludeAttempt(b, a, Failed, readiness, req.later, receipt);
        case Returned(result) =>
          if !result.executed || !Proven(result, req.op) {
            out := ConcludeAttempt(b, a, Failed, readiness, req.later,
              receipt.(compliance := Unverified, acceptance := UNVERIFIED,
                executed := result.executed, verified := false));
          } else if Classify(b.body, req.op).Some? {
            out := Raised(Escalation);
          } else {
            var consumes := Mutates(req.op) && result.changed;
            out := ConcludeAttempt(b, a, Completed, consumes, req.later,
              receipt.(compliance := WithinScope, acceptance := PASS, executed := true, verified := true,
                       changed := result.changed, evidence := Some(result)));
          }
      }
    }
  }
}
