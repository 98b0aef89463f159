/** Theorems over whole runs of write-scope operations, in any order and interleaving. */
module AuthorityRuns {
  import opened Text
  import opened ScopePaths
  import opened Proposals
  import opened Authority
  import opened AuthoritySteps

  /**
   * One call. `LateBinding` is the locked part of a bind on its own, for a caller whose reading of the
   * approval is arbitrarily old; every interleaving of binds is a sequence of these.
   */
  datatype Op =
    | Proposing(runId: string, raw: RawBody)
    | Approving(proposal: ProposalId, seconds: nat, who: string, approvedAt: int, now: int)
    | Loading(approval: ApprovalId, now: int)
    | Revoking(approval: ApprovalId, reason: string, who: string, revokedAt: int, now: int)
    | Consuming(approval: ApprovalId, now: int)
    | Binding(req: BindRequest, now: int)
    | LateBinding(req: BindRequest)
    | Moving(binding: BindingId, to: BindingStatus)
    | Enforcing(request: EnforceRequest)

  function LateBind(st: Store, fs: Fs, req: BindRequest): Store {
    if req.approval !in st.approvals || req.workspace.None? || fs.resolve(req.workspace.value).None? then st
    else CommitBinding(st, fs, st.approvals[req.approval], req, fs.resolve(req.workspace.value).value).0
  }

  function Step(fs: Fs, st: Store, op: Op): Store {
    match op
    case Proposing(runId, raw) => Propose(st, runId, raw).0
    case Approving(id, seconds, who, at, now) => Approve(st, id, seconds, who, at, now).0
    case Loading(id, now) => LoadApproval(st, id, now).0
    case Revoking(id, reason, who, at, now) => Revoke(st, id, reason, who, at, now).0
    case Consuming(id, now) => Consume(st, id, now).0
    case Binding(req, now) => CreateBinding(st, fs, req, now).0
    case LateBinding(req) => LateBind(st, fs, req)
    case Moving(id, to) => TransitionBinding(st, id, to).0
    case Enforcing(req) => Enforce(st, fs, req).0
  }

  function RunFrom(fs: Fs, st: Store, ops: seq<Op>): Store
    decreases |ops|
  {
    if ops == [] then st else RunFrom(fs, Step(fs, st, ops[0]), ops[1..])
  }

  ghost predicate Reachable(fs: Fs, st: Store) {
    exists ops :: st == RunFrom(fs, EMPTY, ops)
  }

  // ---- Every run keeps the invariant -----------------------------------------------------------

  lemma ProposeKeeps(fs: Fs, st: Store, runId: string, raw: RawBody)
    requires Good(fs, st)
    ensures Good(fs, Propose(st, runId, raw).0) && Later(st, Propose(st, runId, raw).0)
    ensures Propose(st, runId, raw).1 != Err(Corrupt)
  {
    hide ValidateBody, NormalizeBody, Good, Later, Strip;
    LaterReflexive(st);
    var frozen := NormalizeBody(raw);
    if frozen.Some? {
      NormalizeBodyIdempotent(raw);
      var id := ProposalId(Strip(runId), HashOf(frozen.value));
      if id in st.proposals {
        StoredProposalLoads(fs, st, id);
      } else {
        ProposalAdded(fs, st, id, frozen.value);
      }
    }
  }

  lemma StoredProposalLoads(fs: Fs, st: Store, id: ProposalId)
    requires Good(fs, st) && id in st.proposals
    ensures LoadProposal(st, id) == Ok(st.proposals[id]) && HashOf(st.proposals[id]) == id.hash
  {
    hide ValidateBody, NormalizeBody, ApprovalsFrozen, BindingsFrozen, ReceiptsHonest;
    assert FrozenProposal(id, st.proposals[id]);
  }

  lemma ApproveKeeps(fs: Fs, st: Store, id: ProposalId, seconds: nat, who: string, approvedAt: int, now: int)
    requires Good(fs, st)
    ensures
      var next := Approve(st, id, seconds, who, approvedAt, now).0;
      Good(fs, next) && Later(st, next)
  {
    hide ValidateBody, NormalizeBody, Good, Later, Strip, LoadProposal, Verify, IsOperator;
    LaterReflexive(st);
    var (next, r) := Approve(st, id, seconds, who, approvedAt, now);
    if next != st {
      Minted(fs, st, id, seconds, who, approvedAt, now);
      ApprovalPut(fs, st, r.value);
    }
  }

  lemma Minted(fs: Fs, st: Store, id: ProposalId, seconds: nat, who: string, approvedAt: int, now: int)
    requires Good(fs, st) && Approve(st, id, seconds, who, approvedAt, now).0 != st
    ensures
      var (next, r) := Approve(st, id, seconds, who, approvedAt, now);
      && r.Ok? && r.value.id !in st.approvals && next == st.(approvals := st.approvals[r.value.id := r.value])
      && r.value.status == Approved && FrozenApproval(r.value.id, r.value) && r.value.id.proposal in st.proposals
      && ApprovalsLater(st.approvals, next.approvals)
  {
    hide ValidateBody, NormalizeBody, Good, Later, Strip, Verify, IsOperator;
    StoredProposalLoads(fs, st, id);
    ValidateBodyIdempotent(LoadProposal(st, id).value.AsRaw());
  }

  lemma BindKeeps(fs: Fs, st: Store, req: BindRequest, now: int)
    requires WellBehaved(fs) && Good(fs, st)
    ensures Good(fs, CreateBinding(st, fs, req, now).0) && Later(st, CreateBinding(st, fs, req, now).0)
  {
    hide Good, Later, LoadApproval, CommitBinding, Strip;
    LaterReflexive(st);
    LoadKeeps(fs, st, req.approval, now);
    if req.approval in st.approvals {
      Loads(fs, st, req.approval, now);
      var (st1, checked) := CheckApproval(st, req.approval, now);
      if checked.Ok? && CheckRequest(fs, checked.value, req).Ok? {
        var workspace := CheckRequest(fs, checked.value, req).value;
        CommitKeeps(fs, st1, checked.value, req, workspace);
        LaterTransitive(st, st1, CommitBinding(st1, fs, checked.value, req, workspace).0);
      }
    }
  }

  lemma LateBindKeeps(fs: Fs, st: Store, req: BindRequest)
    requires WellBehaved(fs) && Good(fs, st)
    ensures Good(fs, LateBind(st, fs, req)) && Later(st, LateBind(st, fs, req))
  {
    hide Good, Later, CommitBinding;
    LaterReflexive(st);
    if req.approval in st.approvals && req.workspace.Some? && fs.resolve(req.workspace.value).Some? {
      StoredId(fs, st, req.approval);
      CommitKeeps(fs, st, st.approvals[req.approval], req, fs.resolve(req.workspace.value).value);
    }
  }

  lemma StoredId(fs: Fs, st: Store, id: ApprovalId)
    requires Good(fs, st) && id in st.approvals
    ensures st.approvals[id].id == id && FrozenApproval(id, st.approvals[id])
    ensures id.proposal in st.proposals && FrozenProposal(id.proposal, st.proposals[id.proposal])
  {
    hide ValidateBody, NormalizeBody, BindingsFrozen, ReceiptsHonest;
  }

  lemma StepKeeps(fs: Fs, st: Store, op: Op)
    requires WellBehaved(fs) && Good(fs, st)
    ensures Good(fs, Step(fs, st, op)) && Later(st, Step(fs, st, op))
  {
    hide Good, Later, Propose, Approve, LoadApproval, Revoke, Consume, CreateBinding, LateBind, TransitionBinding,
      Enforce;
    match op {
      case Proposing(runId, raw) => ProposeKeeps(fs, st, runId, raw);
      case Approving(id, seconds, who, at, now) => ApproveKeeps(fs, st, id, seconds, who, at, now);
      case Loading(id, now) => LoadKeeps(fs, st, id, now);
      case Revoking(id, reason, who, at, now) => Revokes(fs, st, id, reason, who, at, now);
      case Consuming(id, now) => Consumes(fs, st, id, now);
      case Binding(req, now) => BindKeeps(fs, st, req, now);
      case LateBinding(req) => LateBindKeeps(fs, st, req);
      case Moving(id, to) => BindingMoved(fs, st, id, to);
      case Enforcing(req) =>
        if req.binding in st.bindings {
          Enforces(fs, st, req);
        } else {
          EnforceNothing(fs, st, req);
        }
    }
  }

  lemma EnforceNothing(fs: Fs, st: Store, req: EnforceRequest)
    requires req.binding !in st.bindings
    ensures Enforce(st, fs, req).0 == st && Later(st, st)
  {
    LaterReflexive(st);
  }

  lemma EnforceKeeps(fs: Fs, st: Store, req: EnforceRequest)
    requires WellBehaved(fs) && Good(fs, st)
    ensures Good(fs, Enforce(st, fs, req).0)
  {
    hide Good, Later, Enforce;
    if req.binding in st.bindings {
      Enforces(fs, st, req);
    } else {
      EnforceNothing(fs, st, req);
    }
  }

  /** From a good store every run stays good and only moves forward: ended approvals and bindings never change again. */
  lemma {:induction false} RunKeeps(fs: Fs, st: Store, ops: seq<Op>)
    requires WellBehaved(fs) && Good(fs, st)
    ensures Good(fs, RunFrom(fs, st, ops)) && Later(st, RunFrom(fs, st, ops))
    decreases |ops|
  {
    hide Good, Later, Step;
    if ops == [] {
      LaterReflexive(st);
    } else {
      var next := Step(fs, st, ops[0]);
      StepKeeps(fs, st, ops[0]);
      RunKeeps(fs, next, ops[1..]);
      LaterTransitive(st, next, RunFrom(fs, next, ops[1..]));
    }
  }

  lemma ReachableIsGood(fs: Fs, st: Store)
    requires WellBehaved(fs) && Reachable(fs, st)
    ensures Good(fs, st)
  {
    hide Step, RunFrom;
    var ops :| st == RunFrom(fs, EMPTY, ops);
    RunKeeps(fs, EMPTY, ops);
  }

  // ---- Theorems --------------------------------------------------------------------------------

  /**
   * Single use, under any interleaving of binds (with fresh or stale readings of the approval) and
   * transitions: one blocking binding an approval, one open binding a target, one success an approval.
   */
  lemma SingleUseAlways(fs: Fs, st: Store)
    requires WellBehaved(fs) && Reachable(fs, st)
    ensures SingleUse(st.bindings) && OnePerTarget(st.bindings) && OneSuccess(st.receipts)
  {
    ReachableIsGood(fs, st);
  }

  /** Ended is ended: after any further run an ended approval or binding is the very same record. */
  lemma EndedForever(fs: Fs, st: Store, ops: seq<Op>)
    requires WellBehaved(fs) && Reachable(fs, st)
    ensures
      var next := RunFrom(fs, st, ops);
      && (forall id :: id in st.approvals && st.approvals[id].status != Approved ==>
            id in next.approvals && next.approvals[id] == st.approvals[id])
      && (forall id :: id in st.bindings && !IsOpen(st.bindings[id].status) ==>
            id in next.bindings && next.bindings[id] == st.bindings[id])
  {
    hide Step, RunFrom, Good;
    ReachableIsGood(fs, st);
    RunKeeps(fs, st, ops);
  }

  /**
   * At every point the revoked approvals are exactly those with a revocation record, and that record, with the reason
   * given first, is never rewritten.
   */
  lemma RevokedForGood(fs: Fs, st: Store, ops: seq<Op>)
    requires WellBehaved(fs) && Reachable(fs, st)
    ensures forall id :: id in st.approvals ==> (st.approvals[id].status == Revoked <==> id in st.revocations)
    ensures forall id :: id in st.revocations ==> id in st.approvals
    ensures
      var next := RunFrom(fs, st, ops);
      forall id :: id in st.revocations ==> id in next.revocations && next.revocations[id] == st.revocations[id]
  {
    hide Step, RunFrom, ProposalsFrozen, ApprovalsFrozen, BindingsFrozen, ReceiptsHonest;
    ReachableIsGood(fs, st);
    RunKeeps(fs, st, ops);
  }

  /** Revoking once more, whoever does it and for whatever reason, finds the record and changes nothing. */
  lemma RevokeAgain(fs: Fs, st: Store, id: ApprovalId, reason: string, who: string, revokedAt: int, now: int)
    requires WellBehaved(fs) && Reachable(fs, st) && id in st.revocations && IsOperator(who) && Strip(reason) != ""
    ensures id in st.approvals && Revoke(st, id, reason, who, revokedAt, now) == (st, Ok(st.approvals[id]))
  {
    hide Step, RunFrom, LoadApproval, IsOperator, Strip, Good;
    RevokedForGood(fs, st, []);
    ReachableIsGood(fs, st);
    Loads(fs, st, id, now);
    assert st.approvals[id := st.approvals[id]] == st.approvals;
  }

  /** An approval that is not active at some moment is not active at any later one. */
  lemma NeverActiveAgain(fs: Fs, st: Store, id: ApprovalId, now: int, ops: seq<Op>, later: int)
    requires WellBehaved(fs) && Reachable(fs, st) && id in st.approvals && now <= later
    requires Evaluate(st.approvals[id], now).status != Approved
    ensures
      var next := RunFrom(fs, st, ops);
      id in next.approvals && Evaluate(next.approvals[id], later).status != Approved
  {
    hide Step, RunFrom, Good;
    ReachableIsGood(fs, st);
    RunKeeps(fs, st, ops);
  }

  /** A binding that is not active, ended or only suspended, is not active after any run. */
  lemma NeverResumed(fs: Fs, st: Store, ops: seq<Op>, id: BindingId)
    requires WellBehaved(fs) && Reachable(fs, st) && id in st.bindings && st.bindings[id].status != Active
    ensures id in RunFrom(fs, st, ops).bindings && RunFrom(fs, st, ops).bindings[id].status != Active
  {
    hide Step, RunFrom, Good;
    ReachableIsGood(fs, st);
    RunKeeps(fs, st, ops);
  }

  /** Every stored record passes its own integrity check, unchanged, at every point of every run. */
  lemma RecordsAlwaysVerify(fs: Fs, st: Store)
    requires WellBehaved(fs) && Reachable(fs, st)
    ensures forall id :: id in st.proposals ==> LoadProposal(st, id) == Ok(st.proposals[id])
    ensures forall id :: id in st.approvals ==> Verify(st.approvals[id]) == Ok(st.approvals[id])
  {
    hide Good, LoadProposal, Verify, NormalizeBody, ValidateBody;
    ReachableIsGood(fs, st);
    forall id | id in st.proposals ensures LoadProposal(st, id) == Ok(st.proposals[id]) {
      StoredProposalLoads(fs, st, id);
    }
    forall id | id in st.approvals ensures Verify(st.approvals[id]) == Ok(st.approvals[id]) {
      StoredId(fs, st, id);
      VerifiesUnchanged(st.approvals[id]);
    }
  }

  /** Every approval is stored under its own id. */
  lemma StoredUnderOwnIds(fs: Fs, st: Store)
    requires WellBehaved(fs) && Reachable(fs, st)
    ensures forall id :: id in st.approvals ==> st.approvals[id].id == id
  {
    hide Good, Reachable, NormalizeBody, ValidateBody;
    ReachableIsGood(fs, st);
    forall id | id in st.approvals ensures st.approvals[id].id == id {
      StoredId(fs, st, id);
    }
  }

  /**
   * An enforcement of a stored binding succeeds exactly when the roots on record can be resolved, which is always so
   * on tidy ground; then it ends the binding and records a receipt, and otherwise it ends and records nothing.
   */
  lemma EnforcementEndsBinding(fs: Fs, st: Store, req: EnforceRequest)
    requires WellBehaved(fs) && Reachable(fs, st) && req.binding in st.bindings
    ensures req.binding.approval in st.approvals
    ensures
      var (next, r) := Enforce(st, fs, req);
      && (r.Ok? <==> ScopeAt(fs, st, req).Ok?)
      && (r.Ok? ==>
            && req.binding in next.bindings && !IsOpen(next.bindings[req.binding].status)
            && r.value.receipt.id in next.receipts && next.receipts[r.value.receipt.id] == r.value.receipt
            && r.value.receipt.bindingStatus == next.bindings[req.binding].status)
      && (r.Err? ==> next.bindings == st.bindings && next.receipts == st.receipts)
    ensures
      var b, body := st.bindings[req.binding], st.approvals[req.binding.approval].body;
      forall g :: BoundOn(fs, b, body, g) && Tidy(g) ==> Enforce(st, fs, req).1.Ok?
  {
    hide Good, Later, Enforce, ScopeOf, BoundOn, Tidy;
    ReachableIsGood(fs, st);
    BindingHasApproval(fs, st, req.binding);
    Enforces(fs, st, req);
    ScopeIsFrozen(fs, st, st.bindings[req.binding], req.isDirectory, req.clock.roots);
  }

  /** A run that changed anything leaves no live approval behind, unless the revision had moved. */
  lemma ChangeSpendsApproval(fs: Fs, st: Store, req: EnforceRequest)
    requires WellBehaved(fs) && Reachable(fs, st) && req.binding in st.bindings
    ensures req.binding.approval in st.approvals && (Enforce(st, fs, req).1.Ok? ==> ScopeAt(fs, st, req).Ok?)
    ensures
      var (next, r) := Enforce(st, fs, req);
      r.Ok? && Changed(PathsAt(fs, st, req)) && r.value.receipt.id.compliance != BaseShaMismatch ==>
        req.binding.approval in next.approvals && next.approvals[req.binding.approval].status != Approved
  {
    hide Good, Later, Enforce, ReadAt, StopOf, Decide, Uses, PathsAt, ScopeAt, StoredSplit, Reachable, FrozenBinding;
    ReachableIsGood(fs, st);
    BindingHasApproval(fs, st, req.binding);
    Enforces(fs, st, req);
    if ScopeAt(fs, st, req).Ok? {
      var b, a := st.bindings[req.binding], st.approvals[req.binding.approval];
      UnusedMeansEnded(b, a, PathsAt(fs, st, req), req);
    }
  }

  /** A changed list that uses nothing up was classified under an ended approval, or the revision had moved. */
  lemma UnusedMeansEnded(b: Authority.Binding, a: Approval, paths: Split2, req: EnforceRequest)
    ensures
      var read := ReadAt(b, a, req.clock);
      var d := Decide(StopOf(b, a, req.head, req.clock.checkpoint), paths, req.runnerFailed);
      Changed(paths) && d.compliance != BaseShaMismatch && !Uses(d, read, paths) ==> read.status != Approved
  {
  }

  /**
   * The readings of the clock by which the handler has something to fail on. An open binding must have passed its
   * checkpoint before the approval fell due. After that a success spends it whatever the later readings say; any other
   * spending is only tried while the loads before it still find the approval live.
   */
  predicate FallsDue(b: Authority.Binding, paths: Split2, req: EnforceRequest) {
    var c, due := req.clock, req.binding.approval.expiresAt;
    && (IsOpen(b.status) ==> c.checkpoint < due)
    && if IsOpen(b.status) && paths.outOfScope == [] && !req.runnerFailed
       then due <= c.roots || due <= c.load || due <= c.act
       else c.roots < due && c.load < due && due <= c.act
  }

  lemma RecoveryFromReadings(b: Authority.Binding, a: Approval, paths: Split2, req: EnforceRequest)
    requires a.id == req.binding.approval
    ensures
      var read := ReadAt(b, a, req.clock);
      var d := Decide(StopOf(b, a, req.head, req.clock.checkpoint), paths, req.runnerFailed);
      Uses(d, read, paths) && Evaluate(read, req.clock.act).status != Approved <==>
        && a.status == Approved && Changed(paths) && (IsOpen(b.status) ==> req.head == Some(b.baseSha))
        && FallsDue(b, paths, req)
  {
  }

  /**
   * The handler for failed transitions runs exactly when paths were classified as changed, the revision had not
   * moved under an open binding, and the approval, live when that mattered, falls due before it is spent.
   */
  lemma RecoveryExactly(fs: Fs, st: Store, req: EnforceRequest)
    requires WellBehaved(fs) && Reachable(fs, st) && req.binding in st.bindings
    ensures req.binding.approval in st.approvals && (Enforce(st, fs, req).1.Ok? ==> ScopeAt(fs, st, req).Ok?)
    ensures Enforce(st, fs, req).1.Ok? ==>
      var b, a := st.bindings[req.binding], st.approvals[req.binding.approval];
      var paths := PathsAt(fs, st, req);
      Enforce(st, fs, req).1.value.recovered <==>
        && a.status == Approved && Changed(paths) && (IsOpen(b.status) ==> req.head == Some(b.baseSha))
        && FallsDue(b, paths, req)
  {
    hide Good, Later, Enforce, ReadAt, StopOf, Decide, Uses, PathsAt, ScopeAt, StoredSplit, Reachable, FrozenBinding,
      FallsDue;
    ReachableIsGood(fs, st);
    Enforces(fs, st, req);
    BindingHasApproval(fs, st, req.binding);
    if ScopeAt(fs, st, req).Ok? {
      RecoveryFromReadings(st.bindings[req.binding], st.approvals[req.binding.approval], PathsAt(fs, st, req), req);
    }
  }

  /** With one reading of the clock the handler is unreachable. */
  lemma OneReadingNeverRecovers(fs: Fs, st: Store, req: EnforceRequest)
    requires WellBehaved(fs) && Reachable(fs, st) && req.binding in st.bindings
    requires req.clock.checkpoint == req.clock.roots == req.clock.load == req.clock.act
    ensures Enforce(st, fs, req).1.Ok? ==> !Enforce(st, fs, req).1.value.recovered
  {
    RecoveryExactly(fs, st, req) by { hide Reachable; }
  }

  // ---- From the tool guardrail to the receipt --------------------------------------------------

  /**
   * If the guardrail let every write of a run through, every changed path is one of those writes and the roots on
   * record still resolve to the scope that is enforced, then enforcement under live authority, an unmoved revision
   * and a successful runner finds nothing out of scope.
   */
  lemma GuardedRunIsCompliant(fs: Fs, st: Store, req: EnforceRequest, cwd: Path, writes: seq<string>)
    requires WellBehaved(fs) && Reachable(fs, st) && req.binding in st.bindings && req.binding.approval in st.approvals
    requires IsOpen(st.bindings[req.binding].status) && !req.runnerFailed
    requires Evaluate(st.approvals[req.binding.approval], req.clock.checkpoint).status == Approved
    requires req.head == Some(st.bindings[req.binding].baseSha)
    requires ScopeAt(fs, st, req).Ok?
    requires ResolvesTo(fs, FrozenScope(st.bindings[req.binding]), ScopeAt(fs, st, req).value)
    requires
      var b, workspace := st.bindings[req.binding], ScopeAt(fs, st, req).value.workspace;
      && (forall w :: w in writes ==> Guardrail(fs, cwd, w, b.writable, b.denied, Some(b.workspace)).None?)
      && (forall c :: c in req.changed ==>
            exists w :: w in writes && Normalize(fs, w, workspace) == Normalize(fs, c, workspace))
    ensures PathsAt(fs, st, req).outOfScope == []
    ensures
      var r := Enforce(st, fs, req).1;
      && r.Ok? && r.value.receipt.paths.outOfScope == []
      && r.value.receipt.id.compliance == (if PathsAt(fs, st, req).inScope == [] then NoMutation else WithinScope)
  {
    hide Good, Later, Enforce, Classify, Guardrail, Normalize, ScopeOf, ResolvesTo, Ground, Stored;
    ReachableIsGood(fs, st);
    BindingHasApproval(fs, st, req.binding);
    Enforces(fs, st, req);
    var b, body := st.bindings[req.binding], st.approvals[req.binding.approval].body;
    BoundHasRoots(fs, b, body);
    GuardedRunStaysInScope(fs, cwd, FrozenScope(b), ScopeAt(fs, st, req).value, writes, req.changed);
  }

  lemma BoundHasRoots(fs: Fs, b: Authority.Binding, body: Body)
    requires WellBehaved(fs) && FrozenBinding(fs, b, body)
    ensures b.writable != []
  {
    hide Ground;
    var g :| BoundOn(fs, b, body, g);
    GroundIsFixed(fs, body, g);
  }

  /**
   * A successful run that changed nothing completes its binding, and a completed binding blocks its approval:
   * although the approval stays approved, no later bind of it ever succeeds.
   */
  lemma CompletedBindingBlocksForever(fs: Fs, st: Store, id: BindingId, ops: seq<Op>, req: BindRequest, now: int)
    requires WellBehaved(fs) && Reachable(fs, st) && id in st.bindings && st.bindings[id].status == Completed
    requires req.approval == id.approval
    ensures CreateBinding(RunFrom(fs, st, ops), fs, req, now).1.Err?
  {
    hide Good, Step, RunFrom, LoadApproval, CheckRequest, FrozenBinding;
    ReachableIsGood(fs, st);
    RunKeeps(fs, st, ops);
    var next := RunFrom(fs, st, ops);
    BindingHasApproval(fs, next, id);
    Loads(fs, next, req.approval, now);
    var st1 := CheckApproval(next, req.approval, now).0;
    assert id in st1.bindings && st1.bindings[id].status == Completed;
    assert Blocking(st1, req.approval);
  }
}
