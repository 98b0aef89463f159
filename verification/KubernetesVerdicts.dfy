/** What one call of the Kubernetes executor does, read off the request, the records it finds and the answer. */
module KubernetesVerdicts {
  import opened Text
  import opened KubernetesBody
  import opened Kubernetes
  import opened KubernetesRuns

  /** The approval is approved and not due. */
  predicate LiveAt(a: Approval, now: int) {
    a.status == Approved && now < a.id.expiresAt
  }

  /** The request runs under the live approval `id`: through an active binding of its run, or through a fresh bind. */
  ghost predicate Acquirable(st: Store, req: Request, id: GrantId) {
    && req.op.runId != "" && id in st.approvals && LiveAt(st.approvals[id], req.now)
    && (req.binding.Some? ==>
          && req.binding.value in st.bindings && st.bindings[req.binding.value].status == Active
          && req.binding.value.approval == id && req.binding.value.runId == req.op.runId)
    && (req.binding.None? ==> req.approval == Some(id) && Unblocked(st, id))
  }

  /** Every binding of the approval failed, or completed without using it up. */
  ghost predicate Unblocked(st: Store, id: GrantId) {
    forall k :: k in st.bindings && k.approval == id ==>
      st.bindings[k].status == Failed || (st.bindings[k].status == Completed && !st.bindings[k].consumes)
  }

  lemma UnblockedIff(st: Store, id: GrantId)
    ensures Unblocked(st, id) <==> !Blocking(st, id)
  {
  }

  /** The binding an acquired request runs under. */
  function BindingOf(st: Store, req: Request, id: GrantId): BindingId
    requires id in st.approvals
  {
    match req.binding
    case Some(b) => b
    case None =>
      var run := Strip(req.op.runId);
      BindingId(id, if run == "" then st.approvals[id].runId else run, req.boundAt)
  }

  /** The executor answered with verified, warning-free evidence, and for a readiness patch it was read back. */
  ghost predicate Verified(req: Request) {
    && req.answer.Returned? && req.answer.result.executed
    && req.answer.result.verified && !req.answer.result.warnings
    && (IsReadiness(req.op) ==> ReadBack(req.answer.result, req.op))
  }

  /** A verified change by a patch, or any attempt at a readiness patch, uses the approval up. */
  ghost predicate UsesUp(req: Request) {
    if Verified(req) then req.op.verb == "patch" && req.answer.result.changed else IsReadiness(req.op)
  }

  /** The receipt of a call that got as far as the executor. */
  ghost predicate ReceiptFits(req: Request, body: Grant, b: BindingId, r: Receipt) {
    && r.binding == b && r.body == body && r.op == req.op && r.withinScope
    && (if Verified(req) then
          && r.compliance == WithinScope && r.acceptance == PASS && r.executed && r.verified
          && r.changed == req.answer.result.changed && r.evidence == Some(req.answer.result)
        else if req.answer.Error? && !IsReadiness(req.op) then
          r.compliance == Denied && r.acceptance == FAIL && !r.executed && r.verified && !r.changed && r.evidence.None?
        else
          && r.compliance == Unverified && r.acceptance == UNVERIFIED && !r.verified && !r.changed && r.evidence.None?
          && (r.executed <==> req.answer.Returned? && req.answer.result.executed))
    && r.bindingStatus == (if Verified(req) then Completed else Failed)
    && r.approvalStatus == (if UsesUp(req) then Consumed else Approved)
  }

  /** A call refused for its scope: the binding ends, the approval stays live, nothing is executed. */
  ghost predicate Refuses(st: Store, req: Request, id: GrantId, next: Store, out: Outcome)
    requires id in st.approvals
  {
    var body, b := st.approvals[id].body, BindingOf(st, req, id);
    && next.approvals == st.approvals && next.entered == st.entered
    && next.bindings == st.bindings[b := Binding(b, body, Failed, false)]
    && out.Receipted? && next.receipts == st.receipts + [out.receipt]
    && out.receipt == Receipt(b, body, req.op, Denied, FAIL, false, false, true, false, None, Failed, Approved)
  }

  /** A call that entered the executor. */
  ghost predicate Enters(st: Store, req: Request, id: GrantId, next: Store, out: Outcome)
    requires id in st.approvals
  {
    var a, b := st.approvals[id], BindingOf(st, req, id);
    var late := req.later >= id.expiresAt;
    && next.entered == st.entered + [Entry(id, req.op)]
    && next.bindings == st.bindings[b := Binding(b, a.body, if Verified(req) then Completed else Failed, UsesUp(req))]
    && next.approvals == (
         if UsesUp(req) then st.approvals[id := a.(status := if late then Expired else Consumed)] else st.approvals)
    && (if UsesUp(req) && late then next.receipts == st.receipts && out == Raised(InvalidApproval)
        else out.Receipted? && next.receipts == st.receipts + [out.receipt] && ReceiptFits(req, a.body, b, out.receipt))
  }

  lemma LoadsLive(st: Store, id: GrantId, now: int)
    requires Good(st) && id in st.approvals && LiveAt(st.approvals[id], now)
    ensures Load(st, id, now) == (st, Ok(st.approvals[id]))
  {
    hide Good, Load;
    Loads(st, id, now);
    assert st.approvals[id := st.approvals[id]] == st.approvals;
  }

  lemma LoadsDead(st: Store, id: GrantId, now: int)
    requires Good(st)
    ensures
      var (next, r) := Load(st, id, now);
      && next.entered == st.entered && next.receipts == st.receipts && next.bindings == st.bindings
      && (r.Ok? && r.value.status == Approved ==> id in st.approvals && LiveAt(st.approvals[id], now))
  {
    hide Good, Load;
    Loads(st, id, now);
  }

  /** What an acquired request finds. */
  lemma AcquiresExactly(st: Store, req: Request, id: GrantId)
    requires Good(st) && Acquirable(st, req, id)
    ensures
      var (next, r) := Acquire(st, req);
      var b := BindingOf(st, req, id);
      && r.Ok? && r.value.1 == st.approvals[id] && r.value.0.id == b
      && r.value.0 == Binding(b, st.approvals[id].body, Active, r.value.0.consumes)
      && next == st.(bindings := st.bindings[b := r.value.0])
  {
    hide Good, Load, Strip, Bind, ApprovalsIntact;
    GoodApprovals(st);
    LoadsLive(st, id, req.now);
    if req.binding.Some? {
      assert st.bindings[req.binding.value := st.bindings[req.binding.value]] == st.bindings;
    } else {
      BindsExactly(st, req, id);
    }
  }

  lemma BindsExactly(st: Store, req: Request, id: GrantId)
    requires Good(st) && Acquirable(st, req, id) && req.binding.None?
    ensures
      var b := Binding(BindingOf(st, req, id), st.approvals[id].body, Active, false);
      Bind(st, id, req.op.runId, req.boundAt, req.now) == (st.(bindings := st.bindings[b.id := b]), Ok(b))
  {
    hide Good, Load, Strip, Unblocked, Blocking;
    LoadsLive(st, id, req.now);
    UnblockedIff(st, id);
  }

  lemma AcquiresNothing(st: Store, req: Request)
    requires Good(st) && req.op.runId != "" && (forall id :: !Acquirable(st, req, id))
    ensures
      var (next, r) := Acquire(st, req);
      r.Err? && next.entered == st.entered && next.receipts == st.receipts && next.bindings == st.bindings
  {
    hide Good, Load, Strip, Bind, Acquirable;
    if req.binding.Some? {
      FindsNoBinding(st, req, req.binding.value);
    } else if req.approval.Some? {
      BindsNothing(st, req, req.approval.value);
      assert Load(st, req.approval.value, req.now).1.Err? ==> Acquire(st, req).1.Err?;
    }
  }

  lemma BindsNothing(st: Store, req: Request, id: GrantId)
    requires Good(st) && req.op.runId != "" && req.binding.None? && req.approval == Some(id) && !Acquirable(st, req, id)
    ensures
      var (st1, loaded) := Load(st, id, req.now);
      && st1.entered == st.entered && st1.receipts == st.receipts && st1.bindings == st.bindings
      && (loaded.Ok? ==>
            var (next, r) := Bind(st1, id, req.op.runId, req.boundAt, req.now);
            r.Err? && next.entered == st.entered && next.receipts == st.receipts && next.bindings == st.bindings)
  {
    hide Good, Load, Strip, Unblocked, Blocking;
    Loads(st, id, req.now);
    LoadsDead(st, id, req.now);
    var (st1, loaded) := Load(st, id, req.now);
    LoadsDead(st1, id, req.now);
    var again := Load(st1, id, req.now).1;
    if id in st.approvals && LiveAt(st.approvals[id], req.now) {
      LoadsLive(st, id, req.now);
      UnblockedIff(st, id);
      assert st1 == st && Blocking(st, id);
      assert Bind(st, id, req.op.runId, req.boundAt, req.now) == (st, Err(ReusedSingleUse));
    } else if loaded.Ok? {
      assert !LiveAt(st1.approvals[id], req.now);
      assert again.Ok? ==> again.value.status != Approved;
    }
  }

  lemma FindsNoBinding(st: Store, req: Request, b: BindingId)
    requires Good(st) && req.op.runId != "" && req.binding == Some(b) && !Acquirable(st, req, b.approval)
    ensures
      var (next, r) := Acquire(st, req);
      r.Err? && next.entered == st.entered && next.receipts == st.receipts && next.bindings == st.bindings
  {
    hide Good, Load, Bind;
    LoadsDead(st, b.approval, req.now);
    var loaded := Load(st, b.approval, req.now).1;
    assert b !in st.bindings || st.bindings[b].status != Active || b.runId != req.op.runId || loaded.Err?
      || loaded.value.status != Approved;
  }

  // ---- The call --------------------------------------------------------------------------------

  lemma AuthorityAcquired(st: Store, req: Request, id: GrantId)
    requires Good(st) && Acquirable(st, req, id)
    ensures
      var (next, r) := Acquire(st, req);
      && r.Ok? && Good(next) && ApprovalsIntact(next.approvals) && Authority(next, r.value.0, r.value.1)
      && r.value.1.id == id && r.value.1 == st.approvals[id]
  {
    hide Good, Acquire, Acquirable, ApprovalsIntact, BindingsMatch, BindingOf, Authority;
    AcquiresExactly(st, req, id);
    Acquires(st, req);
    GoodApprovals(Acquire(st, req).0);
    AcquirableMeans(st, req, id);
    OwnId(st, id);
  }

  lemma OwnId(st: Store, id: GrantId)
    requires Good(st) && id in st.approvals
    ensures st.approvals[id].id == id
  {
    hide Intact, BindingsMatch, EntriesSpent, EntriesOnce, ReceiptsTrue, ReceiptsOnce;
  }

  lemma PutTwice(m: map<BindingId, Binding>, b: BindingId, x: Binding, y: Binding)
    ensures m[b := x][b := y] == m[b := y]
  {
  }

  /** A conclusion on the bindings and approvals the call began with. */
  lemma ConcludesOn(st: Store, start: Store, b: Binding, a: Approval, to: BindingStatus, consumes: bool, later: int,
      r: Receipt)
    requires ApprovalsIntact(start.approvals) && Authority(start, b, a) && start.approvals == st.approvals
    requires start.bindings == st.bindings[b.id := b]
    requires r.acceptance == PASS ==> r.compliance == WithinScope && r.verified && r.executed
    ensures
      var (next, out) := Conclude(start, b, a, to, consumes, later, r);
      var after := a.(status := if later >= a.id.expiresAt then Expired else Consumed);
      && next.entered == start.entered
      && next.bindings == st.bindings[b.id := Binding(b.id, b.body, to, consumes)]
      && next.approvals == (if consumes then st.approvals[a.id := after] else st.approvals)
      && (if consumes && later >= a.id.expiresAt then
            next.receipts == start.receipts && out == Raised(InvalidApproval)
          else
            && out == Receipted(r.(bindingStatus := to, approvalStatus := if consumes then Consumed else Approved))
            && next.receipts == start.receipts + [out.receipt])
  {
    hide Conclude, ApprovalsIntact;
    Concludes(start, b, a, to, consumes, later, r);
    PutTwice(st.bindings, b.id, b, b.(status := to, consumes := consumes));
  }

  lemma ResolvesAs(st: Store, start: Store, b: Binding, a: Approval, req: Request)
    requires ApprovalsIntact(start.approvals) && Authority(start, b, a) && start.approvals == st.approvals
    requires start.bindings == st.bindings[b.id := b] && start.entered == st.entered && start.receipts == st.receipts
    requires Classify(b.body, req.op).None? && b.id == BindingOf(st, req, a.id)
    ensures
      var (next, out) := Resolve(start.(entered := start.entered + [Entry(a.id, req.op)]), b, a, req);
      Enters(st, req, a.id, next, out)
  {
    hide Conclude, ApprovalsIntact, Classify, ReadBack, Proven, BindingOf;
    var into := start.(entered := start.entered + [Entry(a.id, req.op)]);
    var blank, readiness := Blank(b, a, req.op).(withinScope := true), IsReadiness(req.op);
    var unverified := blank.(compliance := Unverified, acceptance := UNVERIFIED, verified := false);
    VerifiedIff(req);
    match req.answer {
      case Interrupted => ConcludesOn(st, into, b, a, Failed, readiness, req.later, unverified);
      case Error =>
        ConcludesOn(st, into, b, a, Failed, readiness, req.later, if readiness then unverified else blank);
      case Returned(r) =>
        if !r.executed || !Proven(r, req.op) {
          ConcludesOn(st, into, b, a, Failed, readiness, req.later, unverified.(executed := r.executed));
        } else {
          ConcludesOn(st, into, b, a, Completed, Mutates(req.op) && r.changed, req.later,
            blank.(compliance := WithinScope, acceptance := PASS, executed := true, verified := true,
                   changed := r.changed, evidence := Some(r)));
        }
    }
  }

  lemma VerifiedIff(req: Request)
    ensures Verified(req) <==> req.answer.Returned? && req.answer.result.executed && Proven(req.answer.result, req.op)
  {
    hide ReadBack, ReadinessSafe;
    if req.answer.Returned? && IsReadiness(req.op) {
      ReadBackIff(req.answer.result, req.op);
    }
  }

  /**
   * The whole effect of a call. Without authority nothing is entered, bound or receipted. With it the executor is
   * entered exactly when the operation lies inside the grant, field by field, and the answer decides the rest.
   */
  lemma ExecutionVerdict(ops: seq<Op>, req: Request)
    ensures
      var st := Run(EMPTY, ops);
      var (next, out) := Execute(st, req);
      && (forall id :: Acquirable(st, req, id) ==>
            && id in st.approvals
            && (if InGrant(st.approvals[id].body, req.op) then Enters(st, req, id, next, out)
                else Refuses(st, req, id, next, out)))
      && ((forall id :: !Acquirable(st, req, id)) ==>
            && next.entered == st.entered && next.receipts == st.receipts && next.bindings == st.bindings
            && (if req.op.runId == "" then out == Raised(InvalidRequest) else out.Declined?))
  {
    hide Run, Good, Execute, Acquirable, Enters, Refuses, InGrant;
    RunIsGood(ops);
    var st := Run(EMPTY, ops);
    forall id | Acquirable(st, req, id)
      ensures id in st.approvals && Authorized(st, req, id, Execute(st, req).0, Execute(st, req).1)
    {
      AuthorizedCall(st, req, id);
    }
    if forall id :: !Acquirable(st, req, id) {
      UnauthorizedCall(st, req);
    }
  }

  ghost predicate Authorized(st: Store, req: Request, id: GrantId, next: Store, out: Outcome)
    requires id in st.approvals
  {
    if InGrant(st.approvals[id].body, req.op) then Enters(st, req, id, next, out) else Refuses(st, req, id, next, out)
  }

  lemma UnauthorizedCall(st: Store, req: Request)
    requires Good(st) && forall id :: !Acquirable(st, req, id)
    ensures
      var (next, out) := Execute(st, req);
      && next.entered == st.entered && next.receipts == st.receipts && next.bindings == st.bindings
      && (if req.op.runId == "" then out == Raised(InvalidRequest) else out.Declined?)
  {
    hide Good, Acquire, Acquirable, Classify;
    if req.op.runId != "" {
      AcquiresNothing(st, req);
    }
  }

  lemma AuthorizedCall(st: Store, req: Request, id: GrantId)
    requires Good(st) && Acquirable(st, req, id)
    ensures id in st.approvals && Authorized(st, req, id, Execute(st, req).0, Execute(st, req).1)
  {
    hide Good, Acquire, Acquirable, Classify, InGrant, Resolve, Conclude, BindingOf, Enters, ApprovalsIntact;
    assert id in st.approvals && req.op.runId != "" by { AcquirableMeans(st, req, id); }
    AcquiresExactly(st, req, id);
    AuthorityAcquired(st, req, id);
    var (st1, authority) := Acquire(st, req);
    var (b, a) := authority.value;
    InGrantIff(a.body, req.op);
    if InGrant(a.body, req.op) {
      ResolvesAs(st, st1, b, a, req);
    } else {
      ConcludesOn(st, st1, b, a, Failed, false, req.later, Blank(b, a, req.op));
    }
  }

  lemma AcquirableMeans(st: Store, req: Request, id: GrantId)
    requires Acquirable(st, req, id)
    ensures id in st.approvals && req.op.runId != ""
  {
  }

  /** The approval a request names, directly or through its binding. */
  function NamedBy(req: Request): Option<GrantId> {
    if req.binding.Some? then Some(req.binding.value.approval) else req.approval
  }

  /** What a declined call says about the records. */
  ghost predicate DeclinedFor(code: Code, st: Store, req: Request) {
    match code
    case NoBinding =>
      && req.binding.Some?
      && (req.binding.value !in st.bindings || st.bindings[req.binding.value].status != Active
          || req.binding.value.runId != req.op.runId)
    case NoApproval => NamedBy(req).None? || NamedBy(req).value !in st.approvals
    case ExpiredCode => Recorded(st, req) && StatusAt(st.approvals[NamedBy(req).value], req.now) == Expired
    case RevokedCode => Recorded(st, req) && st.approvals[NamedBy(req).value].status == Revoked
    case ReusedSingleUse =>
      && Recorded(st, req)
      && (st.approvals[NamedBy(req).value].status == Consumed
          || (req.binding.None? && !Unblocked(st, NamedBy(req).value)))
    case _ => false
  }

  ghost predicate Recorded(st: Store, req: Request) {
    NamedBy(req).Some? && NamedBy(req).value in st.approvals
  }

  function StatusAt(a: Approval, now: int): GrantStatus {
    if a.status == Approved && a.id.expiresAt <= now then Expired else a.status
  }

  /** A declined call says something that is so. */
  lemma DeclinedMeans(ops: seq<Op>, req: Request)
    requires Execute(Run(EMPTY, ops), req).1.Declined?
    ensures DeclinedFor(Execute(Run(EMPTY, ops), req).1.code, Run(EMPTY, ops), req)
  {
    hide Run, Good, Load, Strip, Unblocked, Blocking, Classify, Conclude, Resolve;
    RunIsGood(ops);
    var st := Run(EMPTY, ops);
    OnlyRefusalsDecline(st, req);
    if Recorded(st, req) {
      var id := NamedBy(req).value;
      Loads(st, id, req.now);
      UnblockedIff(st, id);
      LoadedTwice(st, id, req.now);
    } else if NamedBy(req).Some? {
      Loads(st, NamedBy(req).value, req.now);
    }
  }

  /** Reading an approval again answers the same and changes nothing more. */
  lemma LoadedTwice(st: Store, id: GrantId, now: int)
    requires Good(st) && id in st.approvals
    ensures
      var (next, r) := Load(st, id, now);
      Load(next, id, now) == (next, r) && (Unblocked(next, id) <==> Unblocked(st, id))
        && Blocking(next, id) == Blocking(st, id)
  {
    hide Good, Load;
    Loads(st, id, now);
    var (next, r) := Load(st, id, now);
    Loads(next, id, now);
    assert next.approvals[id := r.value] == next.approvals;
  }

  lemma OnlyRefusalsDecline(st: Store, req: Request)
    requires Good(st) && Execute(st, req).1.Declined?
    ensures Acquire(st, req).1 == Err(Execute(st, req).1.code) && req.op.runId != ""
  {
    hide Good, Acquire, Classify, ApprovalsIntact;
    if req.op.runId != "" && Acquire(st, req).1.Ok? {
      Acquires(st, req);
    }
  }

  // ---- Grants ----------------------------------------------------------------------------------

  /** A grant that can be on record: supported verbs only, no patch without mutation, an exact patch of a Deployment. */
  ghost predicate WellFormed(g: Grant) {
    && IsClusterId(g.cluster) && g.reason != ""
    && g.namespaces != [] && (forall x :: x in g.namespaces ==> IsDnsLabel(x))
    && g.verbs != [] && (forall x :: x in g.verbs ==> x in {"get", "list", "patch"})
    && ("patch" in g.verbs ==> g.mutates)
    && g.resources != [] && (forall x :: x in g.resources ==> IsResourceName(x))
    && (forall x :: x in g.deniedNamespaces ==> IsDnsLabel(x))
    && (forall x :: x in g.deniedVerbs ==> x in {"get", "list", "patch"})
    && (forall x :: x in g.deniedResources ==> IsResourceName(x))
    && (g.exact.Some? ==>
          && g.mutates && g.exact.value.verb == "patch" && g.exact.value.resource == "deployments"
          && g.exact.value.namespace in g.namespaces && g.exact.value.namespace !in g.deniedNamespaces
          && "patch" in g.verbs && "patch" !in g.deniedVerbs
          && "deployments" in g.resources && "deployments" !in g.deniedResources && IsDnsLabel(g.exact.value.name)
          && (g.exact.value.observed.Some? ==>
                && g.exact.value.patch.Readiness? && IsContext(g.exact.value.observed.value.context)
                && IsToken(g.exact.value.observed.value.uid)
                && IsToken(g.exact.value.observed.value.resourceVersion)))
  }

  /** Every grant on record, at every point of every run, is one of these. */
  lemma GrantsWellFormed(ops: seq<Op>, id: GrantId)
    requires id in Run(EMPTY, ops).approvals
    ensures WellFormed(Run(EMPTY, ops).approvals[id].body)
  {
    hide Run, WellFormed, Intact, BindingsMatch, EntriesSpent, EntriesOnce, ReceiptsTrue, ReceiptsOnce;
    RunIsGood(ops);
    IntactIsWellFormed(Run(EMPTY, ops).approvals[id]);
  }

  lemma IntactIsWellFormed(a: Approval)
    requires Intact(a)
    ensures WellFormed(a.body)
  {
    hide Strip, Cleaned, CleanedLower, IsDnsLabel, IsResourceName, IsClusterId, IsContext, IsToken, Lower;
    var raw := a.body.AsRaw();
    assert NormalizeGrant(raw) == Some(a.body);
    assert ListsValid(a.body.(exact := None));
    if a.body.exact.Some? {
      var e := raw.exact.value.value;
      assert NormalizeExact(e, a.body.mutates, a.body.(exact := None)) == a.body.exact;
    }
  }

  /** Revoking succeeds exactly on a live or an already revoked approval. */
  lemma RevokesIff(ops: seq<Op>, id: GrantId, now: int)
    ensures
      var st := Run(EMPTY, ops);
      && (Revoke(st, id, now).1.Ok? <==>
            id in st.approvals && (LiveAt(st.approvals[id], now) || st.approvals[id].status == Revoked))
      && (Revoke(st, id, now).1.Ok? ==>
            Revoke(st, id, now).0 == st.(approvals := st.approvals[id := st.approvals[id].(status := Revoked)]))
  {
    hide Run, Good, Load;
    RunIsGood(ops);
    Loads(Run(EMPTY, ops), id, now);
  }
}
