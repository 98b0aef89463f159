/** Theorems over whole runs of the Kubernetes executor, whatever its executors answer. */
module KubernetesRuns {
  import opened Text
  import opened KubernetesBody
  import opened Kubernetes

  datatype Op =
    | Granting(raw: RawGrant, proposal: string, runId: string, approvedAt: int, approvedBy: string, expiresAt: int)
    | Loading(id: GrantId, now: int)
    | Revoking(id: GrantId, now: int)
    | Opening(id: GrantId, runId: string, boundAt: int, now: int)
    | Executing(req: Request)

  /** Approving a saved proposal; a proposal is saved only if its frozen body verifies unchanged. */
  function SaveGrant(st: Store, op: Op): Store
    requires op.Granting?
  {
    match NormalizeGrant(op.raw)
    case None => st
    case Some(g) =>
      var id := GrantId(op.proposal, op.approvedAt, op.approvedBy, op.expiresAt, g.Hashed());
      var a := Approval(id, op.runId, g, Approved);
      if !Intact(a) || a.id in st.approvals then st else st.(approvals := st.approvals[a.id := a])
  }

  function Step(st: Store, op: Op): Store {
    match op
    case Granting(_, _, _, _, _, _) => SaveGrant(st, op)
    case Loading(id, now) => Load(st, id, now).0
    case Revoking(id, now) => Revoke(st, id, now).0
    case Opening(id, runId, boundAt, now) => Bind(st, id, runId, boundAt, now).0
    case Executing(req) => Execute(st, req).0
  }

  function Run(st: Store, ops: seq<Op>): Store
    decreases |ops|
  {
    if ops == [] then st else Run(Step(st, ops[0]), ops[1..])
  }

  // ---- The invariant ---------------------------------------------------------------------------

  ghost predicate ApprovalsIntact(approvals: map<GrantId, Approval>) {
    forall id :: id in approvals ==> approvals[id].id == id && Intact(approvals[id])
  }

  ghost predicate BindingsMatch(approvals: map<GrantId, Approval>, bindings: map<BindingId, Binding>) {
    forall id :: id in bindings ==>
      bindings[id].id == id && id.approval in approvals && bindings[id].body == approvals[id.approval].body
  }

  /** The grant is for one exact readiness patch. */
  predicate ForReadiness(g: Grant) {
    g.exact.Some? && g.exact.value.patch.Readiness?
  }

  /** Every entry was inside its grant, and an entry for a readiness grant has used it up. */
  ghost predicate EntriesSpent(approvals: map<GrantId, Approval>, entered: seq<Entry>) {
    forall i :: 0 <= i < |entered| ==>
      && entered[i].approval in approvals
      && Classify(approvals[entered[i].approval].body, entered[i].op).None?
      && (ForReadiness(approvals[entered[i].approval].body) ==> approvals[entered[i].approval].status != Approved)
  }

  ghost predicate EntriesOnce(entered: seq<Entry>, approvals: map<GrantId, Approval>) {
    forall i, j :: 0 <= i < j < |entered| && entered[i].approval == entered[j].approval ==>
      entered[i].approval in approvals && !ForReadiness(approvals[entered[i].approval].body)
  }

  predicate IsMutatingPass(r: Receipt) { r.acceptance == PASS && Mutates(r.op) && r.changed }

  /** A PASS is in scope, executed and verified, under the very grant of its approval. */
  ghost predicate ReceiptTrue(approvals: map<GrantId, Approval>, r: Receipt) {
    && r.binding.approval in approvals && r.body == approvals[r.binding.approval].body
    && (r.acceptance == PASS ==>
          && r.compliance == WithinScope && r.withinScope && r.executed && r.verified && Classify(r.body, r.op).None?
          && r.evidence.Some? && r.evidence.value.executed && Proven(r.evidence.value, r.op)
          && r.changed == r.evidence.value.changed)
    && (IsMutatingPass(r) ==> approvals[r.binding.approval].status != Approved)
  }

  ghost predicate ReceiptsTrue(approvals: map<GrantId, Approval>, receipts: seq<Receipt>) {
    forall i :: 0 <= i < |receipts| ==> ReceiptTrue(approvals, receipts[i])
  }

  ghost predicate ReceiptsOnce(receipts: seq<Receipt>) {
    forall i, j :: 0 <= i < j < |receipts| && IsMutatingPass(receipts[i]) && IsMutatingPass(receipts[j]) ==>
      receipts[i].binding.approval != receipts[j].binding.approval
  }

  ghost predicate Good(st: Store) {
    && ApprovalsIntact(st.approvals) && BindingsMatch(st.approvals, st.bindings)
    && EntriesSpent(st.approvals, st.entered) && EntriesOnce(st.entered, st.approvals)
    && ReceiptsTrue(st.approvals, st.receipts) && ReceiptsOnce(st.receipts)
  }

  // ---- Elementary changes ----------------------------------------------------------------------

  /** Approvals are added, or leave the approved state; nothing else about them changes. */
  ghost predicate ApprovalsLater(before: map<GrantId, Approval>, after: map<GrantId, Approval>) {
    forall id :: id in before ==>
      && id in after && after[id] == before[id].(status := after[id].status)
      && (before[id].status != Approved ==> after[id].status != Approved)
  }

  lemma ApprovalsMove(st: Store, after: map<GrantId, Approval>)
    requires Good(st) && ApprovalsIntact(after) && ApprovalsLater(st.approvals, after)
    ensures Good(st.(approvals := after))
  {
    hide Intact, Classify, Proven;
    ReceiptsFollow(st.approvals, after, st.receipts);
  }

  lemma ReceiptsFollow(before: map<GrantId, Approval>, after: map<GrantId, Approval>, receipts: seq<Receipt>)
    requires ReceiptsTrue(before, receipts) && ApprovalsLater(before, after)
    ensures ReceiptsTrue(after, receipts)
  {
    hide Classify, Proven, IsMutatingPass;
    forall i | 0 <= i < |receipts| ensures ReceiptTrue(after, receipts[i]) {
      assert ReceiptTrue(before, receipts[i]);
    }
  }

  lemma StatusMove(approvals: map<GrantId, Approval>, id: GrantId, to: GrantStatus)
    requires ApprovalsIntact(approvals) && id in approvals && (approvals[id].status != Approved ==> to != Approved)
    ensures
      var after := approvals[id := approvals[id].(status := to)];
      ApprovalsIntact(after) && ApprovalsLater(approvals, after)
  {
    hide NormalizeGrant;
  }

  lemma Loads(st: Store, id: GrantId, now: int)
    requires Good(st)
    ensures Good(Load(st, id, now).0)
    ensures id in st.approvals ==>
      var seen := Evaluate(st.approvals[id], now);
      Load(st, id, now) == (st.(approvals := st.approvals[id := seen]), Ok(seen))
    ensures id !in st.approvals ==> Load(st, id, now) == (st, Err(NoApproval))
  {
    hide Intact, BindingsMatch, EntriesSpent, EntriesOnce, ReceiptsTrue, ReceiptsOnce;
    if id in st.approvals {
      var a := Evaluate(st.approvals[id], now);
      StatusMove(st.approvals, id, a.status);
      ApprovalsMove(st, st.approvals[id := a]);
    }
  }

  lemma Revokes(st: Store, id: GrantId, now: int)
    requires Good(st)
    ensures Good(Revoke(st, id, now).0)
  {
    hide Good, Load, Evaluate;
    Loads(st, id, now);
    var (st1, loaded) := Load(st, id, now);
    if loaded.Ok? && loaded.value.status != Expired && loaded.value.status != Consumed {
      GoodApprovals(st1);
      StatusMove(st1.approvals, id, Revoked);
      ApprovalsMove(st1, Revoke(st, id, now).0.approvals);
    }
  }

  lemma GoodApprovals(st: Store)
    requires Good(st)
    ensures ApprovalsIntact(st.approvals) && BindingsMatch(st.approvals, st.bindings)
  {
  }

  /** What becomes of a live approval that is spent at `later`. */
  function SpentAs(a: Approval, later: int): Approval {
    a.(status := if later >= a.id.expiresAt then Expired else Consumed)
  }

  lemma Consumes(st: Store, id: GrantId, later: int)
    requires ApprovalsIntact(st.approvals) && id in st.approvals && st.approvals[id].status == Approved
    ensures
      var (next, r) := Consume(st, id, later);
      && next == st.(approvals := st.approvals[id := SpentAs(st.approvals[id], later)])
      && (if later >= id.expiresAt then r == Err(InvalidApproval) else r == Ok(SpentAs(st.approvals[id], later)))
  {
    hide Intact;
    var a := st.approvals[id];
    assert st.approvals[id := a] == st.approvals;
    assert st.approvals[id := Evaluate(a, later)][id := SpentAs(a, later)] == st.approvals[id := SpentAs(a, later)];
  }

  lemma BindingPut(st: Store, b: Binding)
    requires Good(st) && b.id.approval in st.approvals && b.body == st.approvals[b.id.approval].body
    ensures Good(st.(bindings := st.bindings[b.id := b]))
  {
    hide EntriesSpent, EntriesOnce, ReceiptsTrue, ReceiptsOnce, ApprovalsIntact;
  }

  lemma Binds(st: Store, id: GrantId, runId: string, boundAt: int, now: int)
    requires Good(st)
    ensures Good(Bind(st, id, runId, boundAt, now).0)
    ensures
      var (next, r) := Bind(st, id, runId, boundAt, now);
      r.Ok? ==>
        && id in st.approvals && Evaluate(st.approvals[id], now).status == Approved
        && r.value.id in next.bindings && next.bindings[r.value.id] == r.value && r.value.status == Active
        && r.value.id.approval == id && r.value.body == st.approvals[id].body && next.approvals == st.approvals
        && next.entered == st.entered && next.receipts == st.receipts
  {
    hide Good, Load, Strip;
    Loads(st, id, now);
    var (st1, loaded) := Load(st, id, now);
    var (next, r) := Bind(st, id, runId, boundAt, now);
    if r.Ok? {
      assert st.approvals[id := st.approvals[id]] == st.approvals;
      GoodApprovals(st1);
      BindingPut(st1, r.value);
    }
  }

  /** The authority acquired: a stored active binding and its live, stored approval. */
  ghost predicate Authority(st: Store, b: Binding, a: Approval) {
    && b.id in st.bindings && st.bindings[b.id] == b && b.status == Active
    && a.id == b.id.approval && a.id in st.approvals && st.approvals[a.id] == a && a.status == Approved
    && b.body == a.body
  }

  lemma Acquires(st: Store, req: Request)
    requires Good(st)
    ensures
      var (next, r) := Acquire(st, req);
      && Good(next) && next.entered == st.entered && next.receipts == st.receipts
      && (r.Ok? ==> Authority(next, r.value.0, r.value.1))
  {
    hide Good, Load, Bind, Intact;
    GoodApprovals(st);
    match req.binding {
      case Some(id) => Loads(st, id.approval, req.now);
      case None =>
        if req.approval.Some? {
          Loads(st, req.approval.value, req.now);
          var st1 := Load(st, req.approval.value, req.now).0;
          GoodApprovals(st1);
          Binds(st1, req.approval.value, req.op.runId, req.boundAt, req.now);
          BindKeepsHistory(st1, req.approval.value, req.op.runId, req.boundAt, req.now);
        }
    }
  }

  lemma BindKeepsHistory(st: Store, id: GrantId, runId: string, boundAt: int, now: int)
    ensures Bind(st, id, runId, boundAt, now).0.entered == st.entered
    ensures Bind(st, id, runId, boundAt, now).0.receipts == st.receipts
  {
    hide Intact, Strip;
  }

  // ---- Concluding ------------------------------------------------------------------------------

  /** The whole effect of a conclusion; a receipt is lost only when the approval fell due while being spent. */
  lemma Concludes(st: Store, b: Binding, a: Approval, to: BindingStatus, consumes: bool, later: int, r: Receipt)
    requires ApprovalsIntact(st.approvals) && Authority(st, b, a)
    requires r.acceptance == PASS ==> r.compliance == WithinScope && r.verified && r.executed
    ensures
      var (next, out) := Conclude(st, b, a, to, consumes, later, r);
      var after := if consumes then st.approvals[a.id := SpentAs(a, later)] else st.approvals;
      var written := r.(bindingStatus := to, approvalStatus := if consumes then Consumed else a.status);
      && next.approvals == after && next.entered == st.entered
      && next.bindings == st.bindings[b.id := b.(status := to, consumes := consumes)]
      && (if consumes && later >= a.id.expiresAt then next.receipts == st.receipts && out == Raised(InvalidApproval)
          else next.receipts == st.receipts + [written] && out == Receipted(written))
  {
    hide Consume;
    Consumes(st.(bindings := st.bindings[b.id := b.(status := to, consumes := consumes)]), a.id, later);
  }

  /** A conclusion keeps the invariant, given that what it writes is true and what it must spend it spends. */
  lemma ConcludeKeeps(st: Store, e: Option<Entry>, b: Binding, a: Approval, to: BindingStatus, consumes: bool,
      later: int, r: Receipt)
    requires Good(st) && Authority(st, b, a)
    requires r.binding == b.id && r.body == a.body
    requires r.acceptance == PASS ==>
      && r.compliance == WithinScope && r.withinScope && r.executed && r.verified && Classify(r.body, r.op).None?
      && r.evidence.Some? && r.evidence.value.executed && Proven(r.evidence.value, r.op)
      && r.changed == r.evidence.value.changed
    requires IsMutatingPass(r) ==> consumes
    requires e.Some? ==>
      e.value.approval == a.id && Classify(a.body, e.value.op).None? && (ForReadiness(a.body) ==> consumes)
    ensures
      var start := if e.Some? then st.(entered := st.entered + [e.value]) else st;
      var (next, out) := Conclude(start, b, a, to, consumes, later, r);
      Good(next) && (out.Receipted? || out == Raised(InvalidApproval))
  {
    hide Intact, Classify, Proven, Conclude, Mutates;
    var start := if e.Some? then st.(entered := st.entered + [e.value]) else st;
    Concludes(start, b, a, to, consumes, later, r);
    var after := if consumes then st.approvals[a.id := SpentAs(a, later)] else st.approvals;
    var (next, out) := Conclude(start, b, a, to, consumes, later, r);
    if consumes {
      StatusMove(st.approvals, a.id, SpentAs(a, later).status);
      ApprovalsMove(st, after);
    }
    var mid := st.(approvals := after);
    BindingPut(mid, b.(status := to, consumes := consumes));
    if e.Some? {
      EntryAdded(st, mid, e.value);
    }
    if out.Receipted? {
      ReceiptAdded(st, mid, out.receipt);
    }
  }

  lemma EntryAdded(st: Store, next: Store, e: Entry)
    requires Good(st) && Good(next) && next.entered == st.entered && ApprovalsLater(st.approvals, next.approvals)
    requires e.approval in st.approvals && st.approvals[e.approval].status == Approved
    requires Classify(st.approvals[e.approval].body, e.op).None?
    requires ForReadiness(st.approvals[e.approval].body) ==> next.approvals[e.approval].status != Approved
    ensures EntriesSpent(next.approvals, st.entered + [e]) && EntriesOnce(st.entered + [e], next.approvals)
  {
    hide Intact, Classify, ReceiptsTrue, ReceiptsOnce, BindingsMatch;
  }

  lemma ReceiptAdded(st: Store, next: Store, r: Receipt)
    requires Good(st) && Good(next) && next.receipts == st.receipts
    requires ReceiptTrue(next.approvals, r)
    requires r.binding.approval in st.approvals && st.approvals[r.binding.approval].status == Approved
    ensures ReceiptsTrue(next.approvals, st.receipts + [r]) && ReceiptsOnce(st.receipts + [r])
  {
    hide Intact, Classify, Proven, EntriesSpent, EntriesOnce, BindingsMatch, IsMutatingPass;
    forall i | 0 <= i < |st.receipts| && IsMutatingPass(st.receipts[i])
      ensures st.receipts[i].binding.approval != r.binding.approval
    {
      assert ReceiptTrue(st.approvals, st.receipts[i]);
    }
  }

  /** Whatever the executor answers, entering it under a readiness grant uses the grant up. */
  lemma ResolveKeeps(st: Store, b: Binding, a: Approval, req: Request)
    requires Good(st) && Authority(st, b, a) && Classify(b.body, req.op).None?
    ensures
      var (next, out) := Resolve(st.(entered := st.entered + [Entry(a.id, req.op)]), b, a, req);
      Good(next) && (out.Receipted? || out == Raised(InvalidApproval))
  {
    hide Good, Classify, ReadinessSafe, Conclude, Intact;
    if ForReadiness(a.body) {
      ReadinessEntry(st, b, a, req.op);
    }
    var blank := Blank(b, a, req.op).(withinScope := true);
    var readiness, e := IsReadiness(req.op), Some(Entry(a.id, req.op));
    var unverified := blank.(compliance := Unverified, acceptance := UNVERIFIED, verified := false);
    match req.answer {
      case Interrupted => ConcludeKeeps(st, e, b, a, Failed, readiness, req.later, unverified);
      case Error => ConcludeKeeps(st, e, b, a, Failed, readiness, req.later, if readiness then unverified else blank);
      case Returned(r) =>
        if !r.executed || !Proven(r, req.op) {
          ConcludeKeeps(st, e, b, a, Failed, readiness, req.later, unverified.(executed := r.executed));
        } else {
          if readiness {
            SafeIsChange(r, req.op);
          }
          ConcludeKeeps(st, e, b, a, Completed, Mutates(req.op) && r.changed, req.later,
            blank.(compliance := WithinScope, acceptance := PASS, executed := true, verified := true,
                 changed := r.changed, evidence := Some(r)));
        }
    }
  }

  lemma SafeIsChange(r: Payload, op: Operation)
    requires IsReadiness(op) && ReadinessSafe(r, op)
    ensures r.changed
  {
  }

  lemma ReadinessEntry(st: Store, b: Binding, a: Approval, op: Operation)
    requires Good(st) && Authority(st, b, a) && Classify(b.body, op).None? && ForReadiness(a.body)
    ensures IsReadiness(op) && Mutates(op)
  {
    hide NormalizeGrant, Classify, BindingsMatch, EntriesSpent, EntriesOnce, ReceiptsTrue, ReceiptsOnce;
    assert Intact(a);
    ExactMeansExact(a.body.AsRaw(), op);
  }

  lemma Executes(st: Store, req: Request)
    requires Good(st)
    ensures
      var (next, out) := Execute(st, req);
      && Good(next)
      && (out.Raised? ==> out.code == InvalidRequest || out.code == InvalidApproval)
      && out != Declined(Escalation)
  {
    hide Good, Classify, Acquire, Resolve, Conclude, Finalize;
    if req.op.runId != "" {
      Acquires(st, req);
      var (st1, authority) := Acquire(st, req);
      AcquireCodes(st, req);
      if authority.Ok? {
        var (b, a) := authority.value;
        if Classify(b.body, req.op).Some? {
          ConcludeKeeps(st1, None, b, a, Failed, false, req.later, Blank(b, a, req.op));
        } else {
          ResolveKeeps(st1, b, a, req);
        }
      }
    }
  }

  lemma AcquireCodes(st: Store, req: Request)
    ensures Acquire(st, req).1 != Err(Escalation)
  {
    hide Intact, Strip, Blocking;
  }

  lemma StepKeeps(st: Store, op: Op)
    requires Good(st)
    ensures Good(Step(st, op))
  {
    hide Good, Load, Revoke, Bind, Execute, SaveGrant;
    match op {
      case Granting(_, _, _, _, _, _) => Grants(st, op);
      case Loading(id, now) => Loads(st, id, now);
      case Revoking(id, now) => Revokes(st, id, now);
      case Opening(id, runId, boundAt, now) => Binds(st, id, runId, boundAt, now);
      case Executing(req) => Executes(st, req);
    }
  }

  lemma Grants(st: Store, op: Op)
    requires Good(st) && op.Granting?
    ensures Good(SaveGrant(st, op))
  {
    hide Intact, BindingsMatch, EntriesSpent, EntriesOnce, ReceiptsTrue, ReceiptsOnce, NormalizeGrant;
    var next := SaveGrant(st, op);
    if next != st {
      ApprovalsMove(st, next.approvals);
    }
  }

  lemma {:induction false} RunKeeps(st: Store, ops: seq<Op>)
    requires Good(st)
    ensures Good(Run(st, ops))
    decreases |ops|
  {
    hide Good, Step;
    if ops != [] {
      StepKeeps(st, ops[0]);
      RunKeeps(Step(st, ops[0]), ops[1..]);
    }
  }

  lemma RunIsGood(ops: seq<Op>)
    ensures Good(Run(EMPTY, ops))
  {
    hide Run;
    assert Good(EMPTY);
    RunKeeps(EMPTY, ops);
  }

  // ---- Theorems --------------------------------------------------------------------------------

  /** Over all calls an approval for one exact readiness operation enters an executor at most once. */
  lemma ReadinessEntersOnce(ops: seq<Op>, i: nat, j: nat)
    requires i < j < |Run(EMPTY, ops).entered|
    requires Run(EMPTY, ops).entered[i].approval == Run(EMPTY, ops).entered[j].approval
    ensures
      var st := Run(EMPTY, ops);
      st.entered[i].approval in st.approvals && !ForReadiness(st.approvals[st.entered[i].approval].body)
  {
    hide Run, ApprovalsIntact, BindingsMatch, EntriesSpent, ReceiptsTrue, ReceiptsOnce;
    RunIsGood(ops);
  }

  /** An approval yields at most one PASS for a patch that changed something, and is no longer live after it. */
  lemma OneChangingPass(ops: seq<Op>, i: nat, j: nat)
    requires i < |Run(EMPTY, ops).receipts| && j < |Run(EMPTY, ops).receipts|
    requires IsMutatingPass(Run(EMPTY, ops).receipts[i]) && IsMutatingPass(Run(EMPTY, ops).receipts[j])
    requires Run(EMPTY, ops).receipts[i].binding.approval == Run(EMPTY, ops).receipts[j].binding.approval
    ensures i == j
    ensures
      var st := Run(EMPTY, ops);
      st.receipts[i].binding.approval in st.approvals
        && st.approvals[st.receipts[i].binding.approval].status != Approved
  {
    hide Run, ApprovalsIntact, BindingsMatch, EntriesSpent, EntriesOnce, IsMutatingPass, Classify, Proven;
    RunIsGood(ops);
    assert ReceiptTrue(Run(EMPTY, ops).approvals, Run(EMPTY, ops).receipts[i]);
  }

  /** Whatever entered an executor lay inside the grant of its approval, field by field. */
  lemma EntriesInGrant(ops: seq<Op>, i: nat)
    requires i < |Run(EMPTY, ops).entered|
    ensures
      var st, e := Run(EMPTY, ops), Run(EMPTY, ops).entered[i];
      e.approval in st.approvals && InGrant(st.approvals[e.approval].body, e.op)
  {
    hide Run, ApprovalsIntact, BindingsMatch, EntriesOnce, ReceiptsTrue, ReceiptsOnce, Classify, InGrant;
    RunIsGood(ops);
    var st, e := Run(EMPTY, ops), Run(EMPTY, ops).entered[i];
    InGrantIff(st.approvals[e.approval].body, e.op);
  }

  /** PASS means inside the approval's own grant, field by field, executed, and verified. */
  lemma PassMeansVerified(ops: seq<Op>, i: nat)
    requires i < |Run(EMPTY, ops).receipts| && Run(EMPTY, ops).receipts[i].acceptance == PASS
    ensures
      var st, r := Run(EMPTY, ops), Run(EMPTY, ops).receipts[i];
      && r.binding.approval in st.approvals && InGrant(st.approvals[r.binding.approval].body, r.op)
      && r.withinScope && r.compliance == WithinScope
      && r.evidence.Some? && r.evidence.value.executed && r.evidence.value.verified && !r.evidence.value.warnings
  {
    hide Run, ApprovalsIntact, BindingsMatch, EntriesSpent, EntriesOnce, ReceiptsOnce, Classify, InGrant;
    RunIsGood(ops);
    var st, r := Run(EMPTY, ops), Run(EMPTY, ops).receipts[i];
    assert ReceiptTrue(st.approvals, r);
    InGrantIff(st.approvals[r.binding.approval].body, r.op);
  }

  /** One side of the read-back shows the operation's own object and container, with this timeout. */
  predicate Shows(e: Evidence, op: Operation, timeout: int)
    requires IsReadiness(op)
  {
    && e.wellFormed && op.name == Some(e.name) && op.namespace == e.namespace
    && IsDnsLabel(e.uid) && IsToken(e.resourceVersion)
    && e.container == op.patch.value.container && e.timeout == timeout
  }

  /**
   * The read-back of a readiness patch: nothing but the fields a live one may have, one object, timeout 1 before and
   * 3 after, a later generation and version, and digests that match.
   */
  ghost predicate ReadBack(r: Payload, op: Operation)
    requires IsReadiness(op)
  {
    && r.executed && r.verified && !r.warnings && r.plain && r.digests && r.changed && r.before.Some? && r.after.Some?
    && var before, after := r.before.value, r.after.value;
    && Shows(before, op, 1) && Shows(after, op, 3) && before.uid == after.uid && before.generation < after.generation
    && before.resourceVersion != after.resourceVersion
    && (AllDigits(before.resourceVersion) && AllDigits(after.resourceVersion) ==>
          Value(before.resourceVersion) < Value(after.resourceVersion))
  }

  lemma ReadBackIff(r: Payload, op: Operation)
    requires IsReadiness(op)
    ensures r.executed && Proven(r, op) <==> ReadBack(r, op)
  {
    hide Value;
  }

  /** A PASS of a readiness patch was read back. */
  lemma ReadinessPassIsReadBack(ops: seq<Op>, i: nat)
    requires i < |Run(EMPTY, ops).receipts| && Run(EMPTY, ops).receipts[i].acceptance == PASS
    requires IsReadiness(Run(EMPTY, ops).receipts[i].op)
    ensures
      var r := Run(EMPTY, ops).receipts[i];
      r.evidence.Some? && ReadBack(r.evidence.value, r.op) && r.changed
  {
    hide Run, ApprovalsIntact, BindingsMatch, EntriesSpent, EntriesOnce, ReceiptsOnce, Classify, ReadBack, Proven;
    RunIsGood(ops);
    var r := Run(EMPTY, ops).receipts[i];
    assert ReceiptTrue(Run(EMPTY, ops).approvals, r);
    ReadBackIff(r.evidence.value, r.op);
    assert r.evidence.value.changed by { ReadBackChanged(r.evidence.value, r.op); }
  }

  lemma ReadBackChanged(r: Payload, op: Operation)
    requires IsReadiness(op) && ReadBack(r, op)
    ensures r.changed
  {
  }

  /**
   * The refusal to mint, the re-classification after the execution and the diverged-hash denial are all
   * unreachable: an execution raises only for a missing run id, or because the approval fell due as it was spent.
   */
  lemma GuardsUnreachable(ops: seq<Op>, req: Request)
    ensures
      var out := Execute(Run(EMPTY, ops), req).1;
      && (out.Raised? ==> out.code == InvalidRequest || out.code == InvalidApproval)
      && out != Declined(Escalation)
  {
    hide Run, Good, Execute;
    RunIsGood(ops);
    Executes(Run(EMPTY, ops), req);
  }

  /** A PASS with a change that left the approvals alone and a binding that does not block. */
  ghost predicate FreePass(st: Store, next: Store, out: Outcome, b: BindingId) {
    && out.Receipted? && out.receipt.acceptance == PASS && out.receipt.changed
    && next.approvals == st.approvals && b in next.bindings && !Blocks(next.bindings[b])
  }

  /**
   * A verified change uses its approval up exactly when the verb mutates: a `get` or a `list` that claims a change
   * gets its PASS, leaves the approval live, and its completed binding does not block the next one.
   */
  lemma ChangeIsFreeIff(st: Store, b: Binding, a: Approval, req: Request, r: Payload)
    requires Good(st) && Authority(st, b, a) && Classify(b.body, req.op).None?
    requires req.answer == Returned(r) && r.executed && Proven(r, req.op) && r.changed
    ensures FreePass(st, Resolve(st, b, a, req).0, Resolve(st, b, a, req).1, b.id) <==> !Mutates(req.op)
  {
    hide Good, Conclude, Classify, Proven, ApprovalsIntact, BindingsMatch, IsReadiness, Mutates, SpentAs;
    GoodApprovals(st);
    var consumes := Mutates(req.op);
    Concludes(st, b, a, Completed, consumes, req.later,
      Blank(b, a, req.op).(withinScope := true, compliance := WithinScope, acceptance := PASS,
        executed := true, verified := true, changed := r.changed, evidence := Some(r)));
    SpentIsDead(st, a, req.later);
  }

  lemma SpentIsDead(st: Store, a: Approval, later: int)
    requires a.id in st.approvals && st.approvals[a.id] == a && a.status == Approved
    ensures st.approvals[a.id := SpentAs(a, later)] != st.approvals
  {
    assert st.approvals[a.id := SpentAs(a, later)][a.id].status != Approved;
  }

  /** A bind goes through exactly when the approval is live and nothing blocks it. */
  lemma BindsIff(st: Store, id: GrantId, runId: string, boundAt: int, now: int)
    requires Good(st)
    ensures Bind(st, id, runId, boundAt, now).1.Ok? <==>
      id in st.approvals && Evaluate(st.approvals[id], now).status == Approved && !Blocking(st, id)
    ensures Bind(st, id, runId, boundAt, now).1.Ok? ==>
      Bind(st, id, runId, boundAt, now).1.value.id == NewBindingId(st, id, runId, boundAt)
  {
    hide Good, Load, Strip, Evaluate;
    Loads(st, id, now);
    GoodApprovals(st);
    if id in st.approvals {
      assert Load(st, id, now).0.bindings == st.bindings;
      EvaluateKeepsRun(st.approvals[id], now);
    }
  }

  lemma EvaluateKeepsRun(a: Approval, now: int)
    ensures Evaluate(a, now).runId == a.runId
  {
  }

  /** The id a bind would give: the run of the call, or that of the approval when the call names none. */
  function NewBindingId(st: Store, id: GrantId, runId: string, boundAt: int): BindingId
    requires id in st.approvals
  {
    BindingId(id, if Strip(runId) == "" then st.approvals[id].runId else Strip(runId), boundAt)
  }

  /**
   * An ended binding record is overwritten exactly by a bind of its own approval and run in its own second, made
   * while the approval is live and nothing blocks it.
   */
  lemma EndedBindingReplacedIff(st: Store, id: GrantId, runId: string, boundAt: int, now: int, key: BindingId)
    requires Good(st) && key in st.bindings && st.bindings[key].status != Active
    ensures key in Bind(st, id, runId, boundAt, now).0.bindings
    ensures Bind(st, id, runId, boundAt, now).0.bindings[key] != st.bindings[key] <==>
      && id in st.approvals && Evaluate(st.approvals[id], now).status == Approved && !Blocking(st, id)
      && key == NewBindingId(st, id, runId, boundAt)
  {
    hide Good, Strip, Intact, NewBindingId, Evaluate, Blocking;
    BindsIff(st, id, runId, boundAt, now);
  }
}
