/** The Kubernetes capability executor: bind, classify, execute, verify, receipt, as functions on its store. */
module Kubernetes {
  import opened Text
  import opened KubernetesBody

  // ---- Records ---------------------------------------------------------------------------------

  datatype GrantId = GrantId(proposal: string, approvedAt: int, approvedBy: string, expiresAt: int, hash: Grant)

  datatype GrantStatus = Approved | Expired | Revoked | Consumed

  datatype Approval = Approval(id: GrantId, runId: string, body: Grant, status: GrantStatus)

  datatype BindingId = BindingId(approval: GrantId, runId: string, boundAt: int)

  datatype BindingStatus = Active | Completed | Failed

  datatype Binding = Binding(id: BindingId, body: Grant, status: BindingStatus, consumes: bool)

  datatype Compliance = WithinScope | Denied | Unverified

  datatype Acceptance = PASS | FAIL | UNVERIFIED

  datatype Receipt = Receipt(
    binding: BindingId, body: Grant, op: Operation, compliance: Compliance, acceptance: Acceptance,
    withinScope: bool, executed: bool, verified: bool, changed: bool, evidence: Option<Payload>,
    bindingStatus: BindingStatus, approvalStatus: GrantStatus)

  /** `entered` and `receipts` are the history: every entry into an executor, every receipt written. */
  datatype Store = Store(
    approvals: map<GrantId, Approval>, bindings: map<BindingId, Binding>,
    entered: seq<Entry>, receipts: seq<Receipt>)

  datatype Entry = Entry(approval: GrantId, op: Operation)

  const EMPTY := Store(map[], map[], [], [])

  datatype Code =
    | InvalidRequest | NoApproval | NoBinding | InvalidApproval | InvalidBinding | ExpiredCode | RevokedCode
    | ReusedSingleUse
    | Escalation | Refused(why: Refusal) | UnverifiedCode | ExecutorError | MintRefused

  // ---- What the executor answers ---------------------------------------------------------------

  /** One side of a readiness read-back. */
  datatype Evidence = Evidence(
    wellFormed: bool, name: string, namespace: string, uid: string, resourceVersion: string, generation: int,
    container: string, timeout: int)

  /**
   * A verification payload; `plain` when it has only the fields a live read-back may have, `digests` when they match.
   */
  datatype Payload = Payload(
    executed: bool, verified: bool, warnings: bool, changed: bool, plain: bool, digests: bool,
    before: Option<Evidence>, after: Option<Evidence>)

  datatype Answer = Interrupted | Error | Returned(result: Payload)

  predicate EvidenceFits(e: Evidence, op: Operation, container: string, timeout: int) {
    && e.wellFormed && Some(e.name) == op.name && e.namespace == op.namespace
    && IsDnsLabel(e.uid) && IsToken(e.resourceVersion) && e.container == container && e.timeout == timeout
  }

  /** Versions compare as numbers when both are digits, and otherwise only have to differ. */
  predicate Newer(before: string, after: string) {
    if AllDigits(before) && AllDigits(after) then Value(after) > Value(before) else after != before
  }

  /** `_readiness_result_is_safe`. */
  predicate ReadinessSafe(r: Payload, op: Operation)
    requires IsReadiness(op)
  {
    && r.plain && !r.warnings && r.before.Some? && r.after.Some?
    && EvidenceFits(r.before.value, op, op.patch.value.container, 1)
    && EvidenceFits(r.after.value, op, op.patch.value.container, 3)
    && r.before.value.uid == r.after.value.uid && r.changed
    && r.after.value.generation > r.before.value.generation
    && Newer(r.before.value.resourceVersion, r.after.value.resourceVersion)
    && r.digests
  }

  predicate Proven(r: Payload, op: Operation) {
    r.verified && !r.warnings && (IsReadiness(op) ==> ReadinessSafe(r, op))
  }

  // ---- Approvals -------------------------------------------------------------------------------

  function Evaluate(a: Approval, now: int): Approval {
    if a.status == Approved && now >= a.id.expiresAt then a.(status := Expired) else a
  }

  predicate Intact(a: Approval) {
    var frozen := NormalizeGrant(a.body.AsRaw());
    frozen == Some(a.body) && a.body.Hashed() == a.id.hash
  }

  /** `load_approval`, which persists an expiry it notices. */
  function Load(st: Store, id: GrantId, now: int): (Store, Result<Approval, Code>) {
    if id !in st.approvals then (st, Err(NoApproval))
    else if !Intact(st.approvals[id]) then (st, Err(InvalidApproval))
    else
      var seen := Evaluate(st.approvals[id], now);
      (st.(approvals := st.approvals[id := seen]), Ok(seen))
  }

  /** `_transition_approval(..., consumed)`. */
  function Consume(st: Store, id: GrantId, now: int): (Store, Result<Approval, Code>) {
    var (st1, loaded) := Load(st, id, now);
    if loaded.Err? || loaded.value.status == Consumed then (st1, loaded)
    else if loaded.value.status != Approved then (st1, Err(InvalidApproval))
    else
      var used := loaded.value.(status := Consumed);
      (st1.(approvals := st1.approvals[id := used]), Ok(used))
  }

  function Revoke(st: Store, id: GrantId, now: int): (Store, Result<Approval, Code>) {
    var (st1, loaded) := Load(st, id, now);
    if loaded.Err? then (st1, loaded)
    else if loaded.value.status == Expired || loaded.value.status == Consumed then (st1, Err(InvalidApproval))
    else
      var gone := loaded.value.(status := Revoked);
      (st1.(approvals := st1.approvals[id := gone]), Ok(gone))
  }

  // ---- Bindings --------------------------------------------------------------------------------

  /** Active bindings always block; completed ones only when they consumed the approval. */
  predicate Blocks(b: Binding) {
    b.status == Active || (b.status == Completed && b.consumes)
  }

  predicate Blocking(st: Store, approval: GrantId) {
    exists id :: id in st.bindings && id.approval == approval && Blocks(st.bindings[id])
  }

  /** `create_binding`: unlike the write-scope store it overwrites a record with the same id. */
  function Bind(st: Store, id: GrantId, runId: string, boundAt: int, now: int): (Store, Result<Binding, Code>) {
    var (st1, loaded) := Load(st, id, now);
    if loaded.Err? then (st1, Err(loaded.error))
    else if loaded.value.status != Approved then (st1, Err(StatusCode(loaded.value.status)))
    else if Blocking(st1, id) then (st1, Err(ReusedSingleUse))
    else
      var run := if Strip(runId) == "" then loaded.value.runId else Strip(runId);
      var b := Binding(BindingId(id, run, boundAt), loaded.value.body, Active, false);
      (st1.(bindings := st1.bindings[b.id := b]), Ok(b))
  }

  function StatusCode(s: GrantStatus): Code {
    match s
    case Expired => ExpiredCode
    case Revoked => RevokedCode
    case Consumed => ReusedSingleUse
    case Approved => NoApproval
  }

  /** `_finalize_binding`; only an active binding can end. */
  function Finalize(st: Store, id: BindingId, to: BindingStatus, consumes: bool): (Store, Result<Binding, Code>) {
    if id !in st.bindings then (st, Err(NoBinding))
    else if st.bindings[id].status != Active then (st, Err(InvalidBinding))
    else
      var b := st.bindings[id].(status := to, consumes := consumes);
      (st.(bindings := st.bindings[id := b]), Ok(b))
  }

  // ---- Receipts --------------------------------------------------------------------------------

  /** `_build_receipt` refuses a PASS without verified in-scope execution. */
  function Mint(r: Receipt): Result<Receipt, Code> {
    if r.acceptance == PASS && (r.compliance != WithinScope || !r.verified || !r.executed) then Err(MintRefused)
    else if r.acceptance == PASS && r.compliance == Unverified then Err(MintRefused)
    else Ok(r)
  }

  datatype Outcome = Raised(code: Code) | Declined(code: Code) | Receipted(receipt: Receipt)

  function Write(st: Store, r: Receipt): (Store, Outcome) {
    match Mint(r)
    case Err(e) => (st, Raised(e))
    case Ok(minted) => (st.(receipts := st.receipts + [minted]), Receipted(minted))
  }

  // ---- One execution ---------------------------------------------------------------------------

  /** `later` is the clock at the moment the approval is spent; `now` the one the caller supplied or read first. */
  datatype Request = Request(
    op: Operation, approval: Option<GrantId>, binding: Option<BindingId>, now: int, boundAt: int, later: int,
    answer: Answer)

  /** The authority an execution runs under: its active binding and live approval. */
  function Acquire(st: Store, req: Request): (Store, Result<(Binding, Approval), Code>) {
    match req.binding
    case Some(id) =>
      if id !in st.bindings || st.bindings[id].status != Active then (st, Err(NoBinding))
      else
        var (st1, loaded) := Load(st, id.approval, req.now);
        if loaded.Err? then (st1, Err(loaded.error))
        else if id.runId != req.op.runId then (st1, Err(NoBinding))
        else if loaded.value.status != Approved then (st1, Err(StatusCode(loaded.value.status)))
        else (st1, Ok((st.bindings[id], loaded.value)))
    case None =>
      if req.approval.None? then (st, Err(NoApproval))
      else
        var (st1, loaded) := Load(st, req.approval.value, req.now);
        if loaded.Err? then (st1, Err(loaded.error))
        else
          var (st2, bound) := Bind(st1, req.approval.value, req.op.runId, req.boundAt, req.now);
          if bound.Err? then (st2, Err(bound.error)) else (st2, Ok((bound.value, loaded.value)))
  }

  /** End the binding, spend the approval if the attempt consumes it, write the receipt. */
  function Conclude(st: Store, b: Binding, a: Approval, to: BindingStatus, consumes: bool, later: int, r: Receipt)
    : (Store, Outcome)
  {
    var (st1, ended) := Finalize(st, b.id, to, consumes);
    if ended.Err? then (st1, Raised(ended.error))
    else if !consumes then Write(st1, r.(bindingStatus := to, approvalStatus := a.status))
    else
      var (st2, spent) := Consume(st1, a.id, later);
      if spent.Err? then (st2, Raised(spent.error))
      else Write(st2, r.(bindingStatus := to, approvalStatus := spent.value.status))
  }

  function Blank(b: Binding, a: Approval, op: Operation): Receipt {
    Receipt(b.id, b.body, op, Denied, FAIL, false, false, true, false, None, b.status, a.status)
  }

  /** After the executor: what its answer proves decides the receipt and what it uses up. */
  function Resolve(st: Store, b: Binding, a: Approval, req: Request): (Store, Outcome) {
    var blank, readiness := Blank(b, a, req.op).(withinScope := true), IsReadiness(req.op);
    match req.answer
    case Interrupted =>
      Conclude(st, b, a, Failed, readiness, req.later,
        blank.(compliance := Unverified, acceptance := UNVERIFIED, verified := false))
    case Error =>
      Conclude(st, b, a, Failed, readiness, req.later,
        if readiness then blank.(compliance := Unverified, acceptance := UNVERIFIED, verified := false) else blank)
    case Returned(r) =>
      if !r.executed || !Proven(r, req.op) then
        Conclude(st, b, a, Failed, readiness, req.later,
          blank.(compliance := Unverified, acceptance := UNVERIFIED, executed := r.executed, verified := false))
      else if Classify(b.body, req.op).Some? then (st, Raised(Escalation))
      else
        Conclude(st, b, a, Completed, Mutates(req.op) && r.changed, req.later,
          blank.(compliance := WithinScope, acceptance := PASS, executed := true, verified := true,
                 changed := r.changed, evidence := Some(r)))
  }

  /** `execute_kubernetes_capability`. */
  function Execute(st: Store, req: Request): (Store, Outcome) {
    if req.op.runId == "" then (st, Raised(InvalidRequest))
    else
      var (st1, authority) := Acquire(st, req);
      if authority.Err? then (st1, Declined(authority.error))
      else
        var (b, a) := authority.value;
        if b.body.Hashed() != a.body.Hashed() then
          var (st2, ended) := Finalize(st1, b.id, Failed, false);
          (st2, if ended.Err? then Raised(ended.error) else Declined(Escalation))
        else if Classify(b.body, req.op).Some? then
          Conclude(st1, b, a, Failed, false, req.later, Blank(b, a, req.op))
        else Resolve(st1.(entered := st1.entered + [Entry(a.id, req.op)]), b, a, req)
  }
}
