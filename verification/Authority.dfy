/** The durable write-scope records and what each operation does to them, as functions on the store. */
module Authority {
  import opened Text
  import opened ScopePaths
  import opened Proposals

  // ---- Records ---------------------------------------------------------------------------------

  /** Ids are hashes of these fields; as datatypes they are injective by construction. */
  datatype ProposalId = ProposalId(runId: string, hash: BodyHash)

  datatype ApprovalId = ApprovalId(
    proposal: ProposalId, approvedAt: int, approvedBy: string, expiresAt: int, hash: BodyHash)

  datatype ApprovalStatus = Approved | Revoked | Expired | Consumed

  datatype Approval = Approval(id: ApprovalId, body: Body, status: ApprovalStatus)

  datatype BindingId = BindingId(approval: ApprovalId, runId: string, boundAt: int, targetId: string)

  datatype BindingStatus = Active | Completed | Failed | Withdrawn | Suspended

  datatype Binding = Binding(
    id: BindingId, hash: BodyHash, baseSha: string,
    workspace: Path, writable: seq<Path>, denied: seq<Path>, status: BindingStatus)

  datatype Compliance = WithinScope | ScopeExceeded | BaseShaMismatch | NoMutation | Partial

  datatype ReceiptId = ReceiptId(binding: BindingId, evaluatedAt: int, compliance: Compliance)

  datatype Receipt = Receipt(
    id: ReceiptId, paths: Split2, bindingStatus: BindingStatus, approvalStatus: ApprovalStatus)

  /** Its id is a hash of the approval's id, so an approval has at most one. */
  datatype RevocationRecord = RevocationRecord(revokedBy: string, revokedAt: int, reason: string)

  datatype Store = Store(
    proposals: map<ProposalId, Body>,
    approvals: map<ApprovalId, Approval>,
    bindings: map<BindingId, Binding>,
    receipts: map<ReceiptId, Receipt>,
    revocations: map<ApprovalId, RevocationRecord>)

  const EMPTY := Store(map[], map[], map[], map[], map[])

  datatype Fault =
    | NotFound | Corrupt | InvalidBody | MissingRun | MissingReason | NotOperator | InvalidTtl | HashMismatch
    | NotPositive | AlreadyExpired | Terminal | IllegalTransition
    | ApprovalExpired | ApprovalRevoked | ApprovalConsumed | TargetMismatch | NoWorkspace | HeadUnreadable
    | ShaMismatch | NoWriteCapability | AlreadyBound | TargetBusy
    | NotDirectory | EmptyRoots | BlankRoot | NotRelative | RootTraversal | RootEscapes | Unresolvable

  // ---- Proposals -------------------------------------------------------------------------------

  /** `load_proposal`: the stored body must still freeze to the hash in the id. */
  function LoadProposal(st: Store, id: ProposalId): Result<Body, Fault> {
    if id !in st.proposals then Err(NotFound)
    else
      match NormalizeBody(st.proposals[id].AsRaw())
      case None => Err(Corrupt)
      case Some(b) => if HashOf(b) == id.hash then Ok(b) else Err(Corrupt)
  }

  /** `build_proposal_record` and `save_proposal`; the first record of an id stays. */
  function Propose(st: Store, runId: string, raw: RawBody): (Store, Result<ProposalId, Fault>) {
    match NormalizeBody(raw)
    case None => (st, Err(InvalidBody))
    case Some(b) =>
      var id := ProposalId(Strip(runId), HashOf(b));
      if Strip(runId) == "" then (st, Err(MissingRun))
      else if NormalizeBody(b.AsRaw()).None? || HashOf(NormalizeBody(b.AsRaw()).value) != id.hash then
        (st, Err(Corrupt))
      else if id in st.proposals then (st, if LoadProposal(st, id).Ok? then Ok(id) else Err(Corrupt))
      else (st.(proposals := st.proposals[id := b]), Ok(id))
  }

  // ---- Approvals -------------------------------------------------------------------------------

  predicate IsOperator(identity: string) {
    var id := Lower(Strip(identity));
    && id !in {"", "worker", "agent", "hermes", "claude", "backend", "runner", "self", "model", "prose",
               "transcript", "memory"}
    && !("worker:" <= id)
  }

  /** Lazy time-to-live: approved becomes expired once `expires_at` is reached. */
  function Evaluate(a: Approval, now: int): Approval {
    if a.status == Approved && now >= a.id.expiresAt then a.(status := Expired) else a
  }

  /** The integrity checks of `verify_approval_record`, without time. */
  function Verify(a: Approval): Result<Approval, Fault> {
    match ValidateBody(a.body.AsRaw())
    case None => Err(InvalidBody)
    case Some(b) => if HashOf(b) == a.id.hash then Ok(a.(body := b)) else Err(HashMismatch)
  }

  /** `load_approval`, which persists an expiry it notices. */
  function LoadApproval(st: Store, id: ApprovalId, now: int): (Store, Result<Approval, Fault>) {
    if id !in st.approvals then (st, Err(NotFound))
    else
      match Verify(st.approvals[id])
      case Err(e) => (st, Err(e))
      case Ok(a) =>
        var seen := Evaluate(a, now);
        (if seen.status == a.status then st else st.(approvals := st.approvals[id := seen]), Ok(seen))
  }

  /** `approve_proposal` once the TTL text has been read as `seconds`. */
  function Approve(st: Store, id: ProposalId, seconds: nat, who: string, approvedAt: int, now: int)
    : (Store, Result<Approval, Fault>)
  {
    if !IsOperator(who) then (st, Err(NotOperator))
    else
      match LoadProposal(st, id)
      case Err(e) => (st, Err(e))
      case Ok(frozen) =>
        match ValidateBody(frozen.AsRaw())
        case None => (st, Err(InvalidBody))
        case Some(body) =>
          var aid := ApprovalId(id, approvedAt, Strip(who), approvedAt + seconds, HashOf(body));
          if HashOf(body) != id.hash then (st, Err(HashMismatch))
          else if aid.expiresAt <= approvedAt then (st, Err(NotPositive))
          else if now >= aid.expiresAt then (st, Err(AlreadyExpired))
          else if aid in st.approvals then (st, Verify(st.approvals[aid]))
          else
            var minted := Approval(aid, body, Approved);
            (st.(approvals := st.approvals[aid := minted]), Ok(minted))
  }

  /**
   * `revoke_approval`: revoking a revoked approval reads its record and changes nothing, revoking an expired or
   * consumed one fails.
   */
  function Revoke(st: Store, id: ApprovalId, reason: string, who: string, revokedAt: int, now: int)
    : (Store, Result<Approval, Fault>)
  {
    if !IsOperator(who) then (st, Err(NotOperator))
    else if Strip(reason) == "" then (st, Err(MissingReason))
    else
      var (st1, loaded) := LoadApproval(st, id, now);
      if loaded.Err? then (st1, loaded)
      else if loaded.value.status == Revoked then (st1, if id in st1.revocations then loaded else Err(NotFound))
      else if loaded.value.status != Approved then (st1, Err(Terminal))
      else
        var gone := loaded.value.(status := Revoked);
        var record := RevocationRecord(Strip(who), revokedAt, Strip(reason));
        (st1.(approvals := st1.approvals[id := gone], revocations := st1.revocations[id := record]), Ok(gone))
  }

  /** `transition_approval_status(..., consumed, allow_consumed=True)`. */
  function Consume(st: Store, id: ApprovalId, now: int): (Store, Result<Approval, Fault>) {
    var (st1, loaded) := LoadApproval(st, id, now);
    if loaded.Err? then (st1, loaded)
    else if loaded.value.status != Approved then (st1, Err(IllegalTransition))
    else
      var used := loaded.value.(status := Consumed);
      (st1.(approvals := st1.approvals[id := used]), Ok(used))
  }

  // ---- Bindings --------------------------------------------------------------------------------

  predicate IsOpen(s: BindingStatus) { s == Active || s == Suspended }

  /** A binding that keeps its approval from being bound again. */
  predicate Blocks(s: BindingStatus) { IsOpen(s) || s == Completed }

  predicate MayBecome(from: BindingStatus, to: BindingStatus) {
    || (from == Active && to != Active)
    || (from == Suspended && to != Active && to != Suspended)
  }

  function TransitionBinding(st: Store, id: BindingId, to: BindingStatus): (Store, Result<Binding, Fault>) {
    if id !in st.bindings then (st, Err(NotFound))
    else if !MayBecome(st.bindings[id].status, to) then (st, Err(IllegalTransition))
    else
      var moved := st.bindings[id].(status := to);
      (st.(bindings := st.bindings[id := moved]), Ok(moved))
  }

  /** One root of the body as an absolute path in the workspace. */
  function ResolveRoot(fs: Fs, root: string, workspace: Path): Result<Path, Fault> {
    var rel := Strip(root);
    if rel == "" then Err(BlankRoot)
    else if rel[0] == '/' || rel[0] == '~' then Err(NotRelative)
    else if ".." in Segments(rel) then Err(RootTraversal)
    else
      match fs.resolve(workspace + Segments(rel))
      case None => Err(Unresolvable)
      case Some(p) => if Under(p, workspace) then Ok(p) else Err(RootEscapes)
  }

  function ResolveRoots(fs: Fs, roots: seq<string>, workspace: Path): Result<seq<Path>, Fault> {
    if roots == [] then Ok([])
    else
      match ResolveRoots(fs, roots[..|roots| - 1], workspace)
      case Err(e) => Err(e)
      case Ok(front) =>
        match ResolveRoot(fs, roots[|roots| - 1], workspace)
        case Err(e) => Err(e)
        case Ok(p) => Ok(front + [p])
  }

  /** What the caller and the outside world bring to a bind: `None` where the lookup fails. */
  datatype BindRequest = BindRequest(
    approval: ApprovalId, runId: string, executionTarget: Option<string>,
    workspace: Option<Path>, isDirectory: bool, head: Option<string>,
    boundedWrite: bool, boundAt: int)

  predicate Blocking(st: Store, approval: ApprovalId) {
    exists id :: id in st.bindings && id.approval == approval && Blocks(st.bindings[id].status)
  }

  predicate Busy(st: Store, target: string) {
    exists id :: id in st.bindings && id.targetId == target && IsOpen(st.bindings[id].status)
  }

  /** The checks on the approval itself, made before the store lock is taken. */
  function CheckApproval(st: Store, id: ApprovalId, now: int): (Store, Result<Approval, Fault>) {
    var (st1, loaded) := LoadApproval(st, id, now);
    if loaded.Err? then (st1, loaded)
    else
      (st1, match loaded.value.status
            case Approved => loaded
            case Expired => Err(ApprovalExpired)
            case Revoked => Err(ApprovalRevoked)
            case Consumed => Err(ApprovalConsumed))
  }

  /** The checks on target, workspace, revision and capability. */
  function CheckRequest(fs: Fs, a: Approval, req: BindRequest): Result<Path, Fault> {
    if req.executionTarget.Some? && Strip(req.executionTarget.value) != a.body.targetId then Err(TargetMismatch)
    else if req.workspace.None? || fs.resolve(req.workspace.value).None? then Err(NoWorkspace)
    else if req.head.None? then Err(HeadUnreadable)
    else if req.head.value != a.body.baseSha then Err(ShaMismatch)
    else if !req.boundedWrite then Err(NoWriteCapability)
    else Ok(fs.resolve(req.workspace.value).value)
  }

  /**
   * The locked part: refuse a second binding, freeze the roots, save them as stripped texts. A record with the
   * same id is returned as it is.
   */
  function CommitBinding(st: Store, fs: Fs, a: Approval, req: BindRequest, workspace: Path)
    : (Store, Result<Binding, Fault>)
  {
    if Blocking(st, a.id) then (st, Err(AlreadyBound))
    else if Busy(st, a.body.targetId) then (st, Err(TargetBusy))
    else if !req.isDirectory then (st, Err(NotDirectory))
    else if a.body.allowedRoots == [] then (st, Err(EmptyRoots))
    else
      match (ResolveRoots(fs, a.body.allowedRoots, workspace), ResolveRoots(fs, a.body.deniedRoots, workspace))
      case (Err(e), _) => (st, Err(e))
      case (Ok(_), Err(e)) => (st, Err(e))
      case (Ok(writable), Ok(denied)) =>
        var id := BindingId(a.id, Strip(req.runId), req.boundAt, a.body.targetId);
        if id in st.bindings then (st, Ok(st.bindings[id]))
        else
          var kept := Stored(Scope(workspace, writable, denied));
          var minted := Binding(id, a.id.hash, a.body.baseSha, kept.workspace, kept.allowed, kept.denied, Active);
          (st.(bindings := st.bindings[id := minted]), Ok(minted))
  }

  function CreateBinding(st: Store, fs: Fs, req: BindRequest, now: int): (Store, Result<Binding, Fault>) {
    var (st1, checked) := CheckApproval(st, req.approval, now);
    if Strip(req.runId) == "" then (st, Err(MissingRun))
    else if checked.Err? then (st1, Err(checked.error))
    else
      match CheckRequest(fs, checked.value, req)
      case Err(e) => (st1, Err(e))
      case Ok(workspace) => CommitBinding(st1, fs, checked.value, req, workspace)
  }

  // ---- Enforcement -----------------------------------------------------------------------------

  datatype Stop = BindingNotActive | AuthorityExpired | AuthorityRevoked | AuthorityConsumed | HeadMoved

  /** The four times the clock is read in one enforcement. */
  datatype Clock = Clock(checkpoint: int, roots: int, load: int, act: int)

  datatype EnforceRequest = EnforceRequest(
    binding: BindingId, changed: seq<string>, runnerFailed: bool, head: Option<string>,
    isDirectory: bool, evaluatedAt: int, clock: Clock)

  function Checkpoint(st: Store, b: Binding, head: Option<string>, now: int): (Store, Option<Stop>) {
    if !IsOpen(b.status) then (st, Some(BindingNotActive))
    else
      var (st1, loaded) := LoadApproval(st, b.id.approval, now);
      (st1,
       if loaded.Err? then Some(AuthorityRevoked)
       else match loaded.value.status
         case Expired => Some(AuthorityExpired)
         case Revoked => Some(AuthorityRevoked)
         case Consumed => Some(AuthorityConsumed)
         case Approved => if head == Some(b.baseSha) then None else Some(HeadMoved))
  }

  /** The roots as the record keeps them. */
  function FrozenScope(b: Binding): Scope {
    Scope(b.workspace, b.writable, b.denied)
  }

  /**
   * `load_scope_roots_for_binding` once the approval is read: the body's roots must still resolve, then the roots on
   * record are resolved. When the body's roots fail the caller falls back on the roots on record as they stand; a
   * path that cannot be resolved is an error nobody catches.
   */
  function ScopeOf(fs: Fs, frozen: Scope, body: Body, isDirectory: bool): Result<Scope, Fault> {
    match fs.resolve(frozen.workspace)
    case None => Err(Unresolvable)
    case Some(w) =>
      var fallback := Scope(w, frozen.allowed, frozen.denied);
      if !isDirectory || body.allowedRoots == [] then Ok(fallback)
      else
        match (ResolveRoots(fs, body.allowedRoots, w), ResolveRoots(fs, body.deniedRoots, w))
        case (Err(e), _) => if e == Unresolvable then Err(e) else Ok(fallback)
        case (Ok(_), Err(e)) => if e == Unresolvable then Err(e) else Ok(fallback)
        case (Ok(allowed), Ok(_)) => ResolveStored(fs, frozen, w, allowed)
  }

  function ResolveStored(fs: Fs, frozen: Scope, workspace: Path, allowed: seq<Path>): Result<Scope, Fault> {
    match (ResolveAll(fs, frozen.allowed), ResolveAll(fs, frozen.denied))
    case (Some(stored), Some(denied)) => Ok(Scope(workspace, if frozen.allowed == [] then allowed else stored, denied))
    case _ => Err(Unresolvable)
  }

  /** The scope an enforcement classifies against; an approval that cannot be loaded leaves the roots on record. */
  function ScopeFor(st: Store, fs: Fs, b: Binding, isDirectory: bool, now: int): (Store, Result<Scope, Fault>) {
    var (st1, loaded) := LoadApproval(st, b.id.approval, now);
    (st1, if loaded.Err? then Ok(FrozenScope(b)) else ScopeOf(fs, FrozenScope(b), loaded.value.body, isDirectory))
  }

  datatype Decision = Decision(compliance: Compliance, runFailed: bool)

  function Decide(stop: Option<Stop>, paths: Split2, runnerFailed: bool): Decision {
    var changed := paths.inScope != [] || paths.outOfScope != [];
    match stop
    case Some(HeadMoved) => Decision(BaseShaMismatch, true)
    case Some(_) =>
      Decision(if paths.outOfScope != [] then ScopeExceeded else if changed then Partial else NoMutation, true)
    case None =>
      if paths.outOfScope != [] then Decision(ScopeExceeded, true)
      else if runnerFailed then Decision(if changed then Partial else NoMutation, true)
      else if !changed then Decision(NoMutation, false)
      else Decision(WithinScope, false)
  }

  /** The records after the authority transitions; `recovered` when they went through the error handler. */
  datatype Applied = Applied(binding: Binding, approval: Approval, recovered: bool)

  const BREACH_REVOKER := "runtime:write-scope-enforcement"

  /** Stands for the failure reason of the run, which is never blank. */
  const BREACH_REASON := "scope_exceeded"

  function Close(st: Store, b: Binding, to: BindingStatus): (Store, Binding) {
    if !IsOpen(b.status) then (st, b)
    else
      var (st1, moved) := TransitionBinding(st, b.id, to);
      (st1, if moved.Ok? then moved.value else b)
  }

  /** The handler for a failed transition: fail the binding if it is still open and read the approval again. */
  function Recover(st: Store, b: Binding, a: Approval, now: int): (Store, Applied) {
    var (st1, closed) := Close(st, b, Failed);
    var (st2, loaded) := LoadApproval(st1, b.id.approval, now);
    (st2, Applied(closed, if loaded.Ok? then loaded.value else a, true))
  }

  function Spend(st: Store, b: Binding, a: Approval, revoke: bool, now: int): (Store, Applied) {
    var (st1, spent) :=
      if revoke then Revoke(st, a.id, BREACH_REASON, BREACH_REVOKER, now, now) else Consume(st, a.id, now);
    if spent.Err? then Recover(st1, b, a, now) else (st1, Applied(b, spent.value, false))
  }

  function Apply(st: Store, b: Binding, a: Approval, d: Decision, paths: Split2, now: int): (Store, Applied) {
    match d.compliance
    case WithinScope =>
      var (st1, moved) := TransitionBinding(st, b.id, Completed);
      if moved.Err? then Recover(st1, b, a, now)
      else if paths.inScope == [] then (st1, Applied(moved.value, a, false))
      else Spend(st1, moved.value, a, false, now)
    case NoMutation =>
      var (st1, closed) := Close(st, b, if d.runFailed then Failed else Completed);
      (st1, Applied(closed, a, false))
    case BaseShaMismatch =>
      var (st1, closed) := Close(st, b, Failed);
      (st1, Applied(closed, a, false))
    case ScopeExceeded =>
      var (st1, closed) := Close(st, b, Failed);
      if a.status == Approved then Spend(st1, closed, a, true, now) else (st1, Applied(closed, a, false))
    case Partial =>
      var (st1, closed) := Close(st, b, Failed);
      if a.status == Approved && (paths.inScope != [] || paths.outOfScope != [])
      then Spend(st1, closed, a, paths.outOfScope != [], now)
      else (st1, Applied(closed, a, false))
  }

  datatype Outcome = Outcome(receipt: Receipt, binding: Binding, approval: Approval, runFailed: bool, recovered: bool)

  /**
   * `enforce_write_scope_mutations`. It raises, leaving no receipt, when a record is missing or a root on record
   * cannot be resolved. The receipt on file has its paths stripped.
   */
  function Enforce(st: Store, fs: Fs, req: EnforceRequest): (Store, Result<Outcome, Fault>) {
    if req.binding !in st.bindings then (st, Err(NotFound))
    else
      var b := st.bindings[req.binding];
      var (st1, stop) := Checkpoint(st, b, req.head, req.clock.checkpoint);
      var (st2, scope) := ScopeFor(st1, fs, b, req.isDirectory, req.clock.roots);
      if scope.Err? then (st2, Err(scope.error))
      else
        var paths := Classify(fs, scope.value, req.changed);
        var d := Decide(stop, paths, req.runnerFailed);
        var (st3, loaded) := LoadApproval(st2, b.id.approval, req.clock.load);
        if loaded.Err? then (st3, Err(loaded.error))
        else
          var (st4, done) := Apply(st3, b, loaded.value, d, paths, req.clock.act);
          var id := ReceiptId(b.id, req.evaluatedAt, d.compliance);
          var receipt := Receipt(id, StoredSplit(paths), done.binding.status, done.approval.status);
          (st4.(receipts := st4.receipts[receipt.id := receipt]),
           Ok(Outcome(receipt, done.binding, done.approval, d.runFailed || done.recovered, done.recovered)))
  }

  // ---- Audit -----------------------------------------------------------------------------------

  datatype Residual = NoResidual | RequiresNewBinding | RequiresRecovery

  /** `_terminal_authority_state`: the residual authority from one approval and one binding status. */
  function ResidualOf(approval: Option<ApprovalStatus>, binding: Option<BindingStatus>): Residual {
    if approval != Some(Approved) then NoResidual
    else
      match binding
      case None => RequiresNewBinding
      case Some(s) => if s == Failed || s == Withdrawn then RequiresNewBinding
                      else if IsOpen(s) then RequiresRecovery else NoResidual
  }

  /** `list_bindings(approval_id=...)[-1]`: a record bound no earlier than any other, `None` when there is none. */
  ghost predicate IsLatest(bindings: map<BindingId, Binding>, approval: ApprovalId, latest: Option<BindingId>) {
    match latest
    case None => forall id :: id in bindings ==> id.approval != approval
    case Some(last) =>
      && last in bindings && last.approval == approval
      && forall id :: id in bindings && id.approval == approval ==> id.boundAt <= last.boundAt
  }

  function StatusOf(bindings: map<BindingId, Binding>, id: Option<BindingId>): Option<BindingStatus> {
    if id.Some? && id.value in bindings then Some(bindings[id.value].status) else None
  }
}
