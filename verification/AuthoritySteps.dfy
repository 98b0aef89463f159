/** Every write-scope operation keeps the invariant: frozen authority, single use, permanence, honest receipts. */
module AuthoritySteps {
  import opened Text
  import opened ScopePaths
  import opened Proposals
  import opened Authority

  // ---- The invariant ---------------------------------------------------------------------------

  ghost predicate FrozenProposal(id: ProposalId, b: Body) {
    NormalizeBody(b.AsRaw()) == Some(b) && HashOf(b) == id.hash
  }

  ghost predicate FrozenApproval(id: ApprovalId, a: Approval) {
    && a.id == id && ValidateBody(a.body.AsRaw()) == Some(a.body) && HashOf(a.body) == id.hash
    && id.hash == id.proposal.hash && id.approvedAt < id.expiresAt
  }

  /** `g` is a resolved workspace with the body's roots resolved in it. */
  ghost predicate Ground(fs: Fs, body: Body, g: Scope) {
    && fs.resolve(g.workspace) == Some(g.workspace) && body.allowedRoots != []
    && ResolveRoots(fs, body.allowedRoots, g.workspace) == Ok(g.allowed)
    && ResolveRoots(fs, body.deniedRoots, g.workspace) == Ok(g.denied)
  }

  /** The binding was made on `g` and keeps its roots as stripped texts. */
  ghost predicate BoundOn(fs: Fs, b: Binding, body: Body, g: Scope) {
    && b.hash == b.id.approval.hash && b.baseSha == body.baseSha && b.id.targetId == body.targetId
    && Ground(fs, body, g) && FrozenScope(b) == Stored(g)
  }

  ghost predicate FrozenBinding(fs: Fs, b: Binding, body: Body) {
    exists g :: BoundOn(fs, b, body, g)
  }

  /** `paths` is what a receipt keeps of a classification against `scope`. */
  ghost predicate ClassifiedAs(fs: Fs, scope: Result<Scope, Fault>, changed: seq<string>, paths: Split2) {
    scope.Ok? && paths == StoredSplit(Classify(fs, scope.value, changed))
  }

  /** Some enforcement of the binding, in a workspace that is a directory or not, lists these paths. */
  ghost predicate Justified(fs: Fs, b: Binding, body: Body, paths: Split2) {
    exists changed, isDirectory :: ClassifiedAs(fs, ScopeOf(fs, FrozenScope(b), body, isDirectory), changed, paths)
  }

  ghost predicate ProposalsFrozen(proposals: map<ProposalId, Body>) {
    forall id :: id in proposals ==> FrozenProposal(id, proposals[id])
  }

  ghost predicate ApprovalsFrozen(proposals: map<ProposalId, Body>, approvals: map<ApprovalId, Approval>) {
    forall id :: id in approvals ==> id.proposal in proposals && FrozenApproval(id, approvals[id])
  }

  ghost predicate BindingsFrozen(fs: Fs, approvals: map<ApprovalId, Approval>, bindings: map<BindingId, Binding>) {
    forall id :: id in bindings ==>
      bindings[id].id == id && id.approval in approvals && FrozenBinding(fs, bindings[id], approvals[id.approval].body)
  }

  /** At most one active, suspended or completed binding for each approval. */
  ghost predicate SingleUse(bindings: map<BindingId, Binding>) {
    forall x, y :: x in bindings && y in bindings && x.approval == y.approval ==>
      Blocks(bindings[x].status) && Blocks(bindings[y].status) ==> x == y
  }

  /** At most one active or suspended binding for each target. */
  ghost predicate OnePerTarget(bindings: map<BindingId, Binding>) {
    forall x, y :: x in bindings && y in bindings && x.targetId == y.targetId ==>
      IsOpen(bindings[x].status) && IsOpen(bindings[y].status) ==> x == y
  }

  /** Each receipt is about an ended binding, and its paths are a classification against the roots on record. */
  ghost predicate ReceiptsHonest(fs: Fs, approvals: map<ApprovalId, Approval>, bindings: map<BindingId, Binding>,
      receipts: map<ReceiptId, Receipt>)
  {
    forall id :: id in receipts ==>
      && receipts[id].id == id && id.binding in bindings && !IsOpen(bindings[id.binding].status)
      && id.binding.approval in approvals
      && Justified(fs, bindings[id.binding], approvals[id.binding.approval].body, receipts[id].paths)
  }

  /** A within-scope receipt has used its approval up. */
  ghost predicate SuccessSpends(approvals: map<ApprovalId, Approval>, receipts: map<ReceiptId, Receipt>) {
    forall id :: id in receipts && id.compliance == WithinScope ==>
      id.binding.approval in approvals && approvals[id.binding.approval].status != Approved
  }

  /** At most one within-scope receipt for each approval. */
  ghost predicate OneSuccess(receipts: map<ReceiptId, Receipt>) {
    forall x, y :: x in receipts && y in receipts && x.binding.approval == y.binding.approval ==>
      x.compliance == WithinScope && y.compliance == WithinScope ==> x == y
  }

  /** The revoked approvals are those with a revocation record. */
  ghost predicate RevokedOnRecord(approvals: map<ApprovalId, Approval>,
      revocations: map<ApprovalId, RevocationRecord>)
  {
    && (forall id :: id in revocations ==> id in approvals && approvals[id].status == Revoked)
    && (forall id :: id in approvals && approvals[id].status == Revoked ==> id in revocations)
  }

  ghost predicate Good(fs: Fs, st: Store) {
    && ProposalsFrozen(st.proposals) && ApprovalsFrozen(st.proposals, st.approvals)
    && BindingsFrozen(fs, st.approvals, st.bindings) && SingleUse(st.bindings) && OnePerTarget(st.bindings)
    && ReceiptsHonest(fs, st.approvals, st.bindings, st.receipts)
    && SuccessSpends(st.approvals, st.receipts) && OneSuccess(st.receipts)
    && RevokedOnRecord(st.approvals, st.revocations)
  }

  /** Keys stay and their records keep everything but the status, and that once the record has ended. */
  ghost predicate ApprovalsLater(was: map<ApprovalId, Approval>, next: map<ApprovalId, Approval>) {
    forall id :: id in was ==>
      && id in next && next[id] == was[id].(status := next[id].status)
      && (was[id].status != Approved ==> next[id] == was[id])
  }

  ghost predicate BindingsLater(was: map<BindingId, Binding>, next: map<BindingId, Binding>) {
    forall id :: id in was ==>
      && id in next && next[id] == was[id].(status := next[id].status)
      && (!IsOpen(was[id].status) ==> next[id] == was[id])
      && (was[id].status != Active ==> next[id].status != Active)
  }

  /** Nothing is lost or rewritten, and what has ended stays as it ended. */
  ghost predicate Later(st: Store, next: Store) {
    && (forall id :: id in st.proposals ==> id in next.proposals && next.proposals[id] == st.proposals[id])
    && ApprovalsLater(st.approvals, next.approvals) && BindingsLater(st.bindings, next.bindings)
    && st.receipts.Keys <= next.receipts.Keys
    && (forall id :: id in st.revocations ==> id in next.revocations && next.revocations[id] == st.revocations[id])
  }

  // ---- Elementary changes ----------------------------------------------------------------------

  lemma ProposalAdded(fs: Fs, st: Store, id: ProposalId, b: Body)
    requires Good(fs, st) && id !in st.proposals && FrozenProposal(id, b)
    ensures Good(fs, st.(proposals := st.proposals[id := b])) && Later(st, st.(proposals := st.proposals[id := b]))
  {
    hide ValidateBody, NormalizeBody, FrozenBinding, Justified;
  }

  lemma BindingsFollow(fs: Fs, approvals: map<ApprovalId, Approval>, next: map<ApprovalId, Approval>,
      bindings: map<BindingId, Binding>)
    requires BindingsFrozen(fs, approvals, bindings) && ApprovalsLater(approvals, next)
    ensures BindingsFrozen(fs, next, bindings)
  {
    hide FrozenBinding;
  }

  /** What the bindings and receipts need of the approvals survives every later set of approvals. */
  lemma RecordsFollow(fs: Fs, st: Store, next: map<ApprovalId, Approval>)
    requires Good(fs, st) && ApprovalsLater(st.approvals, next)
    ensures BindingsFrozen(fs, next, st.bindings) && ReceiptsHonest(fs, next, st.bindings, st.receipts)
    ensures SuccessSpends(next, st.receipts)
  {
    hide ProposalsFrozen, ApprovalsFrozen, SingleUse, OnePerTarget, OneSuccess, RevokedOnRecord, FrozenBinding,
      Justified;
    BindingsFollow(fs, st.approvals, next, st.bindings);
    ReceiptsFollow(fs, st.approvals, next, st.bindings, st.bindings, st.receipts);
  }

  lemma FrozenPut(proposals: map<ProposalId, Body>, approvals: map<ApprovalId, Approval>, a: Approval)
    requires ApprovalsFrozen(proposals, approvals) && a.id.proposal in proposals && FrozenApproval(a.id, a)
    ensures ApprovalsFrozen(proposals, approvals[a.id := a])
  {
    hide FrozenApproval;
  }

  /** A live approval may end in any status. */
  lemma EndedLater(proposals: map<ProposalId, Body>, approvals: map<ApprovalId, Approval>, id: ApprovalId,
      to: ApprovalStatus)
    requires ApprovalsFrozen(proposals, approvals) && id in approvals && approvals[id].status == Approved
    ensures
      var a := approvals[id].(status := to);
      a.id == id && id.proposal in proposals && FrozenApproval(id, a) && ApprovalsLater(approvals, approvals[id := a])
  {
    hide ValidateBody;
    assert FrozenApproval(id, approvals[id]);
  }

  lemma PutIsNoRevocation(st: Store, a: Approval)
    requires RevokedOnRecord(st.approvals, st.revocations) && a.status != Revoked
    requires a.id in st.approvals ==> st.approvals[a.id].status == Approved
    ensures RevokedOnRecord(st.approvals[a.id := a], st.revocations)
  {
  }

  lemma PutIsRevocation(st: Store, id: ApprovalId, record: RevocationRecord)
    requires RevokedOnRecord(st.approvals, st.revocations) && id in st.approvals && st.approvals[id].status == Approved
    ensures
      RevokedOnRecord(st.approvals[id := st.approvals[id].(status := Revoked)], st.revocations[id := record])
    ensures id !in st.revocations
  {
  }

  /** An approval is added, or expires or is consumed. */
  lemma ApprovalPut(fs: Fs, st: Store, a: Approval)
    requires Good(fs, st) && FrozenApproval(a.id, a) && a.id.proposal in st.proposals
    requires a.status != Revoked && (a.id in st.approvals ==> st.approvals[a.id].status == Approved)
    requires ApprovalsLater(st.approvals, st.approvals[a.id := a])
    ensures Good(fs, st.(approvals := st.approvals[a.id := a])) && Later(st, st.(approvals := st.approvals[a.id := a]))
  {
    hide ProposalsFrozen, ApprovalsFrozen, FrozenApproval, BindingsFrozen, SingleUse, OnePerTarget, ReceiptsHonest,
      SuccessSpends, OneSuccess, RevokedOnRecord, ApprovalsLater, BindingsLater;
    LaterReflexive(st);
    RecordsFollow(fs, st, st.approvals[a.id := a]);
    FrozenPut(st.proposals, st.approvals, a);
    PutIsNoRevocation(st, a);
  }

  lemma ApprovalEnded(fs: Fs, st: Store, id: ApprovalId, to: ApprovalStatus)
    requires Good(fs, st) && id in st.approvals && st.approvals[id].status == Approved && to != Revoked
    ensures
      var next := st.(approvals := st.approvals[id := st.approvals[id].(status := to)]);
      Good(fs, next) && Later(st, next)
  {
    hide ValidateBody, NormalizeBody, ResolveRoots, Judge;
    var a := st.approvals[id].(status := to);
    assert FrozenApproval(id, st.approvals[id]);
    ApprovalPut(fs, st, a);
  }

  /** A live approval is revoked, with its record. */
  lemma ApprovalRevoked(fs: Fs, st: Store, id: ApprovalId, record: RevocationRecord)
    requires Good(fs, st) && id in st.approvals && st.approvals[id].status == Approved
    ensures
      var gone := st.approvals[id].(status := Revoked);
      var next := st.(approvals := st.approvals[id := gone], revocations := st.revocations[id := record]);
      Good(fs, next) && Later(st, next)
  {
    hide ProposalsFrozen, ApprovalsFrozen, FrozenApproval, BindingsFrozen, SingleUse, OnePerTarget, ReceiptsHonest,
      SuccessSpends, OneSuccess, RevokedOnRecord, ApprovalsLater, BindingsLater;
    var gone := st.approvals[id].(status := Revoked);
    LaterReflexive(st);
    EndedLater(st.proposals, st.approvals, id, Revoked);
    RecordsFollow(fs, st, st.approvals[id := gone]);
    FrozenPut(st.proposals, st.approvals, gone);
    PutIsRevocation(st, id, record);
  }

  /** On a good store loading never fails and only ever turns a due approval into an expired one. */
  lemma Loads(fs: Fs, st: Store, id: ApprovalId, now: int)
    requires Good(fs, st) && id in st.approvals
    ensures
      var (next, loaded) := LoadApproval(st, id, now);
      && loaded == Ok(Evaluate(st.approvals[id], now)) && loaded.value.id == id
      && next == st.(approvals := st.approvals[id := loaded.value])
      && Good(fs, next) && Later(st, next)
  {
    hide ValidateBody, NormalizeBody, ResolveRoots, Judge, ProposalsFrozen, BindingsFrozen;
    var a := st.approvals[id];
    assert FrozenApproval(id, a);
    VerifiesUnchanged(a);
    var seen := Evaluate(a, now);
    assert st.approvals[id := a] == st.approvals;
    if a.status == Approved {
      ApprovalEnded(fs, st, id, seen.status);
    }
    assert LoadApproval(st, id, now).1 == Ok(seen);
  }

  lemma VerifiesUnchanged(a: Approval)
    requires ValidateBody(a.body.AsRaw()) == Some(a.body) && HashOf(a.body) == a.id.hash
    ensures Verify(a) == Ok(a)
  {
  }

  lemma LoadKeeps(fs: Fs, st: Store, id: ApprovalId, now: int)
    requires Good(fs, st)
    ensures Good(fs, LoadApproval(st, id, now).0) && Later(st, LoadApproval(st, id, now).0)
    ensures id !in st.approvals ==> LoadApproval(st, id, now) == (st, Err(NotFound))
  {
    hide Good, Later;
    LaterReflexive(st);
    if id in st.approvals {
      Loads(fs, st, id, now);
    }
  }

  /** Revoking an approval that is live at `now` revokes it and files the record; a second revocation finds both. */
  lemma Revokes(fs: Fs, st: Store, id: ApprovalId, reason: string, who: string, revokedAt: int, now: int)
    requires Good(fs, st)
    ensures
      var next := Revoke(st, id, reason, who, revokedAt, now).0;
      Good(fs, next) && Later(st, next)
    ensures id in st.approvals && IsOperator(who) && Strip(reason) != "" ==>
      var (next, r) := Revoke(st, id, reason, who, revokedAt, now);
      var record := RevocationRecord(Strip(who), revokedAt, Strip(reason));
      var seen := Evaluate(st.approvals[id], now).status;
      && (r.Ok? <==> seen == Approved || seen == Revoked)
      && id in next.approvals
      && next.approvals[id] == st.approvals[id].(status := if seen == Approved then Revoked else seen)
      && (r.Ok? ==> r.value == next.approvals[id] && r.value.status == Revoked)
      && next.revocations == (if seen == Approved then st.revocations[id := record] else st.revocations)
      && next.bindings == st.bindings && next.receipts == st.receipts
  {
    hide LoadApproval, Good, Later, IsOperator, Strip;
    LaterReflexive(st);
    LoadKeeps(fs, st, id, now);
    if id in st.approvals && IsOperator(who) && Strip(reason) != "" {
      Loads(fs, st, id, now);
      var st1 := LoadApproval(st, id, now).0;
      RevokedHasRecord(fs, st1, id);
      if st1.approvals[id].status == Approved {
        ApprovalRevoked(fs, st1, id, RevocationRecord(Strip(who), revokedAt, Strip(reason)));
        LaterTransitive(st, st1, Revoke(st, id, reason, who, revokedAt, now).0);
      }
    }
  }

  lemma RevokedHasRecord(fs: Fs, st: Store, id: ApprovalId)
    requires Good(fs, st) && id in st.approvals
    ensures st.approvals[id].status == Revoked <==> id in st.revocations
  {
    hide ProposalsFrozen, ApprovalsFrozen, BindingsFrozen, SingleUse, OnePerTarget, ReceiptsHonest;
  }

  lemma Consumes(fs: Fs, st: Store, id: ApprovalId, now: int)
    requires Good(fs, st)
    ensures Good(fs, Consume(st, id, now).0) && Later(st, Consume(st, id, now).0)
    ensures id in st.approvals ==>
      var (next, r) := Consume(st, id, now);
      var seen := Evaluate(st.approvals[id], now).status;
      && (r.Ok? <==> seen == Approved)
      && id in next.approvals
      && next.approvals[id] == st.approvals[id].(status := if seen == Approved then Consumed else seen)
      && (r.Ok? ==> r.value == next.approvals[id] && r.value.status == Consumed)
      && next.bindings == st.bindings && next.receipts == st.receipts
  {
    hide LoadApproval, Good, Later;
    LaterReflexive(st);
    LoadKeeps(fs, st, id, now);
    if id in st.approvals {
      Loads(fs, st, id, now);
      var st1 := LoadApproval(st, id, now).0;
      if st1.approvals[id].status == Approved {
        ApprovalEnded(fs, st1, id, Consumed);
        LaterTransitive(st, st1, Consume(st, id, now).0);
      }
    }
  }

  lemma LaterReflexive(st: Store)
    ensures Later(st, st)
  {
  }

  lemma LaterTransitive(a: Store, b: Store, c: Store)
    requires Later(a, b) && Later(b, c)
    ensures Later(a, c)
  {
  }

  lemma BindingPut(fs: Fs, st: Store, b: Binding)
    requires Good(fs, st) && BindingsLater(st.bindings, st.bindings[b.id := b])
    requires b.id.approval in st.approvals && FrozenBinding(fs, b, st.approvals[b.id.approval].body)
    requires SingleUse(st.bindings[b.id := b]) && OnePerTarget(st.bindings[b.id := b])
    ensures Good(fs, st.(bindings := st.bindings[b.id := b])) && Later(st, st.(bindings := st.bindings[b.id := b]))
  {
    hide ProposalsFrozen, ApprovalsFrozen, FrozenBinding, Justified, SuccessSpends, OneSuccess, RevokedOnRecord,
      SingleUse, OnePerTarget, ApprovalsLater, BindingsLater, ReceiptsHonest;
    LaterReflexive(st);
    assert ApprovalsLater(st.approvals, st.approvals);
    ReceiptsFollow(fs, st.approvals, st.approvals, st.bindings, st.bindings[b.id := b], st.receipts);
  }

  lemma ReceiptsFollow(fs: Fs, approvals: map<ApprovalId, Approval>, nextApprovals: map<ApprovalId, Approval>,
      bindings: map<BindingId, Binding>, next: map<BindingId, Binding>, receipts: map<ReceiptId, Receipt>)
    requires ReceiptsHonest(fs, approvals, bindings, receipts)
    requires ApprovalsLater(approvals, nextApprovals) && BindingsLater(bindings, next)
    ensures ReceiptsHonest(fs, nextApprovals, next, receipts)
  {
    hide Justified;
  }

  /** Moving a binding on opens nothing: whatever blocks after it blocked before. */
  lemma MoveKeepsUse(bindings: map<BindingId, Binding>, id: BindingId, to: BindingStatus)
    requires id in bindings && bindings[id].id == id && MayBecome(bindings[id].status, to)
    requires SingleUse(bindings) && OnePerTarget(bindings)
    ensures
      var next := bindings[id := bindings[id].(status := to)];
      SingleUse(next) && OnePerTarget(next) && BindingsLater(bindings, next)
  {
  }

  lemma BindingMoved(fs: Fs, st: Store, id: BindingId, to: BindingStatus)
    requires Good(fs, st)
    ensures Good(fs, TransitionBinding(st, id, to).0) && Later(st, TransitionBinding(st, id, to).0)
  {
    hide Later, Good;
    LaterReflexive(st);
    if id in st.bindings && MayBecome(st.bindings[id].status, to) {
      StoredBinding(fs, st, id);
      MoveKeepsUse(st.bindings, id, to);
      BindingPut(fs, st, st.bindings[id].(status := to));
    }
  }

  lemma StoredBinding(fs: Fs, st: Store, id: BindingId)
    requires Good(fs, st) && id in st.bindings
    ensures st.bindings[id].id == id && id.approval in st.approvals
    ensures SingleUse(st.bindings) && OnePerTarget(st.bindings)
    ensures forall to :: FrozenBinding(fs, st.bindings[id].(status := to), st.approvals[id.approval].body)
  {
    hide ProposalsFrozen, ApprovalsFrozen, SingleUse, OnePerTarget, ReceiptsHonest, Ground;
    var body := st.approvals[id.approval].body;
    assert FrozenBinding(fs, st.bindings[id], body);
    var g :| BoundOn(fs, st.bindings[id], body, g);
    forall to ensures FrozenBinding(fs, st.bindings[id].(status := to), body) {
      assert BoundOn(fs, st.bindings[id].(status := to), body, g);
    }
  }

  lemma BindingAdded(fs: Fs, st: Store, b: Binding)
    requires Good(fs, st) && b.id !in st.bindings && b.id.approval in st.approvals
    requires FrozenBinding(fs, b, st.approvals[b.id.approval].body)
    requires !Blocking(st, b.id.approval) && !Busy(st, b.id.targetId)
    ensures Good(fs, st.(bindings := st.bindings[b.id := b])) && Later(st, st.(bindings := st.bindings[b.id := b]))
  {
    hide ValidateBody, NormalizeBody, FrozenBinding, ApprovalsFrozen, ReceiptsHonest;
    BindingPut(fs, st, b);
  }

  /** What a commit that changes the store adds. */
  lemma CommitAdds(fs: Fs, st: Store, a: Approval, req: BindRequest, workspace: Path)
    requires fs.resolve(workspace) == Some(workspace)
    ensures
      var (next, r) := CommitBinding(st, fs, a, req, workspace);
      next != st ==>
        && r.Ok? && next == st.(bindings := st.bindings[r.value.id := r.value]) && r.value.id !in st.bindings
        && r.value.id.approval == a.id && r.value.id.targetId == a.body.targetId && r.value.status == Active
        && !Blocking(st, a.id) && !Busy(st, a.body.targetId) && FrozenBinding(fs, r.value, a.body)
  {
    hide ResolveRoots, Blocking, Busy, Strip, Stored;
    var (next, r) := CommitBinding(st, fs, a, req, workspace);
    if next != st {
      var writable := ResolveRoots(fs, a.body.allowedRoots, workspace).value;
      var denied := ResolveRoots(fs, a.body.deniedRoots, workspace).value;
      assert BoundOn(fs, r.value, a.body, Scope(workspace, writable, denied));
    }
  }

  lemma CommitKeeps(fs: Fs, st: Store, a: Approval, req: BindRequest, workspace: Path)
    requires Good(fs, st) && a.id in st.approvals && a.body == st.approvals[a.id].body
    requires fs.resolve(workspace) == Some(workspace)
    ensures
      var next := CommitBinding(st, fs, a, req, workspace).0;
      Good(fs, next) && Later(st, next)
  {
    hide Good, Later, CommitBinding, FrozenBinding, Blocking, Busy;
    LaterReflexive(st);
    CommitAdds(fs, st, a, req, workspace);
    var (next, r) := CommitBinding(st, fs, a, req, workspace);
    if next != st {
      BindingAdded(fs, st, r.value);
    }
  }

  /** A successful bind hands out an active binding exactly when its id was free; a stale id returns an ended record. */
  lemma BindingMintedIffFreshId(fs: Fs, st: Store, a: Approval, req: BindRequest, workspace: Path)
    requires Good(fs, st) && CommitBinding(st, fs, a, req, workspace).1.Ok?
    ensures
      var (next, r) := CommitBinding(st, fs, a, req, workspace);
      var id := BindingId(a.id, Strip(req.runId), req.boundAt, a.body.targetId);
      && r.value.id == id && id in next.bindings && next.bindings[id] == r.value
      && (r.value.status == Active <==> id !in st.bindings)
      && (id in st.bindings ==> next == st && r.value.status in {Failed, Withdrawn})
  {
    hide ValidateBody, NormalizeBody, ResolveRoots, Judge, ProposalsFrozen, ApprovalsFrozen, OnePerTarget, SingleUse,
      ReceiptsHonest;
    var id := BindingId(a.id, Strip(req.runId), req.boundAt, a.body.targetId);
    if id in st.bindings {
      assert !Blocks(st.bindings[id].status);
    }
  }

  // ---- Frozen scope ----------------------------------------------------------------------------

  /** A resolved root is a fixed point, below its workspace. */
  lemma {:induction false} RootsAreFixed(fs: Fs, roots: seq<string>, workspace: Path)
    requires WellBehaved(fs) && ResolveRoots(fs, roots, workspace).Ok?
    ensures
      var rs := ResolveRoots(fs, roots, workspace).value;
      && |rs| == |roots|
      && forall i :: 0 <= i < |rs| ==>
        Ok(rs[i]) == ResolveRoot(fs, roots[i], workspace) && fs.resolve(rs[i]) == Some(rs[i]) && Under(rs[i], workspace)
    decreases |roots|
  {
    if roots != [] {
      RootsAreFixed(fs, roots[..|roots| - 1], workspace);
    }
  }

  /** A ground is made of resolved paths, its roots below the workspace. */
  lemma GroundIsFixed(fs: Fs, body: Body, g: Scope)
    requires WellBehaved(fs) && Ground(fs, body, g)
    ensures IsClean(g.workspace) && AllClean(g.allowed) && AllClean(g.denied)
    ensures AllFixed(fs, g.allowed) && AllFixed(fs, g.denied) && g.allowed != []
    ensures forall i :: 0 <= i < |g.allowed| ==> Under(g.allowed[i], g.workspace)
  {
    hide ResolveRoots, ResolveRoot, IsClean;
    RootsAreFixed(fs, body.allowedRoots, g.workspace);
    RootsAreFixed(fs, body.deniedRoots, g.workspace);
  }

  ghost predicate AllFixed(fs: Fs, ps: seq<Path>) {
    forall i :: 0 <= i < |ps| ==> fs.resolve(ps[i]) == Some(ps[i])
  }

  /** On tidy ground every enforcement classifies against the roots resolved at bind time. */
  lemma TidyGroundHolds(fs: Fs, body: Body, g: Scope, isDirectory: bool)
    requires WellBehaved(fs) && Ground(fs, body, g) && Tidy(g)
    ensures Stored(g) == g && ScopeOf(fs, g, body, isDirectory) == Ok(g) && ResolvesTo(fs, g, g)
  {
    hide ResolveRoots, ResolveAll, Tidy, Stored;
    GroundIsFixed(fs, body, g);
    TidyIsStored(g);
    ResolveAllFixed(fs, g.allowed);
    ResolveAllFixed(fs, g.denied);
  }

  /** When the roots of the body still resolve, the scope is what the roots on record resolve to. */
  lemma ScopeResolves(fs: Fs, frozen: Scope, body: Body)
    requires frozen.allowed != [] && body.allowedRoots != [] && fs.resolve(frozen.workspace).Some?
    requires ResolveRoots(fs, body.allowedRoots, fs.resolve(frozen.workspace).value).Ok?
    requires ResolveRoots(fs, body.deniedRoots, fs.resolve(frozen.workspace).value).Ok?
    requires ScopeOf(fs, frozen, body, true).Ok?
    ensures ResolvesTo(fs, frozen, ScopeOf(fs, frozen, body, true).value)
  {
    hide ResolveRoots, ResolveAll;
  }

  /**
   * Whatever loading the approval at `now` answers, the scope is a function of the roots on record; on tidy ground it
   * is the ground itself.
   */
  lemma ScopeIsFrozen(fs: Fs, st: Store, b: Binding, isDirectory: bool, now: int)
    requires WellBehaved(fs) && Good(fs, st) && b.id in st.bindings && st.bindings[b.id] == b
    ensures b.id.approval in st.approvals
    ensures
      var body := st.approvals[b.id.approval].body;
      && ScopeFor(st, fs, b, isDirectory, now)
        == (LoadApproval(st, b.id.approval, now).0, ScopeOf(fs, FrozenScope(b), body, isDirectory))
      && (forall g :: BoundOn(fs, b, body, g) && Tidy(g) ==> ScopeOf(fs, FrozenScope(b), body, isDirectory) == Ok(g))
  {
    hide Good, LoadApproval, ScopeOf, Tidy, Ground;
    BindingHasApproval(fs, st, b.id);
    Loads(fs, st, b.id.approval, now);
    var body := st.approvals[b.id.approval].body;
    forall g | BoundOn(fs, b, body, g) && Tidy(g) ensures ScopeOf(fs, FrozenScope(b), body, isDirectory) == Ok(g) {
      TidyGroundHolds(fs, body, g, isDirectory);
    }
  }

  // ---- Enforcement -----------------------------------------------------------------------------

  lemma BreachRevokerIsOperator()
    ensures IsOperator(BREACH_REVOKER) && Strip(BREACH_REASON) != ""
  {
    StripTrimmed(BREACH_REASON);
    var s := BREACH_REVOKER;
    assert |s| == 31 && s[0] == 'r' && s[30] == 't';
    StripTrimmed(s);
    assert |Lower(s)| == 31 && Lower(s)[0] == 'r';
  }

  predicate Changed(paths: Split2) {
    paths.inScope != [] || paths.outOfScope != []
  }

  /** The records an enforcement works on: the stored binding and its stored approval. */
  ghost predicate Current(st: Store, b: Binding, a: Approval) {
    && b.id in st.bindings && st.bindings[b.id] == b
    && a.id == b.id.approval && a.id in st.approvals && st.approvals[a.id] == a
  }

  /** What a piece of the transition leaves behind: both records as stored, a binding that has ended. */
  ghost predicate Settled(fs: Fs, st: Store, next: Store, done: Applied) {
    && Good(fs, next) && Later(st, next) && next.receipts == st.receipts
    && Current(next, done.binding, done.approval) && !IsOpen(done.binding.status)
  }

  lemma Closes(fs: Fs, st: Store, b: Binding, to: BindingStatus)
    requires Good(fs, st) && b.id in st.bindings && st.bindings[b.id] == b && !IsOpen(to)
    ensures
      var (next, closed) := Close(st, b, to);
      && Good(fs, next) && Later(st, next) && next.receipts == st.receipts && next.approvals == st.approvals
      && closed.id == b.id && b.id in next.bindings && next.bindings[b.id] == closed
      && closed.status == (if IsOpen(b.status) then to else b.status)
  {
    hide ValidateBody, NormalizeBody, ResolveRoots, Judge, Good, Later;
    BindingMoved(fs, st, b.id, to);
  }

  lemma Recovers(fs: Fs, st: Store, b: Binding, a: Approval, now: int)
    requires Good(fs, st) && b.id in st.bindings && st.bindings[b.id] == b && b.id.approval in st.approvals
    ensures
      var (next, done) := Recover(st, b, a, now);
      && Settled(fs, st, next, done) && done.recovered && done.binding.id == b.id
      && done.approval == Evaluate(st.approvals[b.id.approval], now)
  {
    hide Close, LoadApproval, Good, Later, Evaluate;
    Closes(fs, st, b, Failed);
    var (st1, closed) := Close(st, b, Failed);
    Loads(fs, st1, b.id.approval, now);
    LaterTransitive(st, st1, LoadApproval(st1, b.id.approval, now).0);
  }

  /** Spending ends the approval; it goes through the handler exactly when the approval is no longer live. */
  lemma Spends(fs: Fs, st: Store, b: Binding, a: Approval, loaded: Approval, revoke: bool, now: int)
    requires Good(fs, st) && Current(st, b, a) && !IsOpen(b.status) && loaded.id == a.id
    requires revoke ==> a.status == Approved
    ensures
      var (next, done) := Spend(st, b, loaded, revoke, now);
      && Settled(fs, st, next, done) && done.binding.id == b.id && done.approval.status != Approved
      && (done.recovered <==> Evaluate(a, now).status != Approved)
  {
    hide Recover, Revoke, Consume, Good, Later, IsOperator, Strip;
    BreachRevokerIsOperator();
    Revokes(fs, st, a.id, BREACH_REASON, BREACH_REVOKER, now, now);
    Consumes(fs, st, a.id, now);
    var st1 :=
      if revoke then Revoke(st, a.id, BREACH_REASON, BREACH_REVOKER, now, now).0 else Consume(st, a.id, now).0;
    if Evaluate(a, now).status != Approved {
      Recovers(fs, st1, b, loaded, now);
      LaterTransitive(st, st1, Recover(st1, b, loaded, now).0);
    }
  }

  /** Does this compliance end the approval? */
  predicate Uses(d: Decision, a: Approval, paths: Split2) {
    match d.compliance
    case WithinScope => paths.inScope != []
    case ScopeExceeded => a.status == Approved
    case Partial => a.status == Approved && Changed(paths)
    case _ => false
  }

  lemma Applies(fs: Fs, st: Store, b: Binding, a: Approval, d: Decision, paths: Split2, now: int)
    requires Good(fs, st) && Current(st, b, a)
    requires d.compliance == WithinScope ==> IsOpen(b.status)
    ensures
      var (next, done) := Apply(st, b, a, d, paths, now);
      && Settled(fs, st, next, done) && done.binding.id == b.id
      && (done.recovered <==> Uses(d, a, paths) && Evaluate(a, now).status != Approved)
      && (if Uses(d, a, paths) then done.approval.status != Approved else done.approval == a)
  {
    hide Spend, Good, Later, Evaluate;
    var to := if d.compliance == WithinScope || (d.compliance == NoMutation && !d.runFailed) then Completed else Failed;
    Closes(fs, st, b, to);
    var (st1, closed) := Close(st, b, to);
    if Uses(d, a, paths) {
      var revoke := d.compliance == ScopeExceeded || (d.compliance == Partial && paths.outOfScope != []);
      Spends(fs, st1, closed, a, a, revoke, now);
      LaterTransitive(st, st1, Spend(st1, closed, a, revoke, now).0);
    }
  }

  lemma ReceiptAdded(fs: Fs, st: Store, r: Receipt)
    requires Good(fs, st) && r.id.binding in st.bindings && !IsOpen(st.bindings[r.id.binding].status)
    requires r.id.binding.approval in st.approvals
    requires Justified(fs, st.bindings[r.id.binding], st.approvals[r.id.binding.approval].body, r.paths)
    requires r.id.compliance == WithinScope ==>
      && st.approvals[r.id.binding.approval].status != Approved
      && NoSuccess(st, r.id.binding.approval)
    ensures Good(fs, st.(receipts := st.receipts[r.id := r])) && Later(st, st.(receipts := st.receipts[r.id := r]))
  {
    hide ProposalsFrozen, ApprovalsFrozen, BindingsFrozen, SingleUse, OnePerTarget, Justified;
    assert ApprovalsLater(st.approvals, st.approvals) && BindingsLater(st.bindings, st.bindings);
  }

  ghost predicate NoSuccess(st: Store, approval: ApprovalId) {
    forall x :: x in st.receipts && x.binding.approval == approval ==> x.compliance != WithinScope
  }

  lemma LiveHasNoSuccess(fs: Fs, st: Store, id: ApprovalId)
    requires Good(fs, st) && id in st.approvals && st.approvals[id].status == Approved
    ensures NoSuccess(st, id)
  {
    hide ProposalsFrozen, ApprovalsFrozen, BindingsFrozen, SingleUse, OnePerTarget, ReceiptsHonest;
  }

  /** What stops a run, from the two records and the observed revision. */
  function StopOf(b: Binding, a: Approval, head: Option<string>, now: int): Option<Stop> {
    if !IsOpen(b.status) then Some(BindingNotActive)
    else
      match Evaluate(a, now).status
      case Expired => Some(AuthorityExpired)
      case Revoked => Some(AuthorityRevoked)
      case Consumed => Some(AuthorityConsumed)
      case Approved => if head == Some(b.baseSha) then None else Some(HeadMoved)
  }

  /** The approval as the enforcement reads it before the transitions, after up to three evaluations. */
  function ReadAt(b: Binding, a: Approval, clock: Clock): Approval {
    Evaluate(Evaluate(if IsOpen(b.status) then Evaluate(a, clock.checkpoint) else a, clock.roots), clock.load)
  }

  lemma Checks(fs: Fs, st: Store, b: Binding, a: Approval, head: Option<string>, now: int)
    requires Good(fs, st) && Current(st, b, a)
    ensures
      var (next, stop) := Checkpoint(st, b, head, now);
      && Good(fs, next) && Later(st, next) && stop == StopOf(b, a, head, now)
      && Current(next, b, if IsOpen(b.status) then Evaluate(a, now) else a)
      && next.receipts == st.receipts && next.bindings == st.bindings
  {
    hide Good, Later, LoadApproval;
    LaterReflexive(st);
    Loads(fs, st, a.id, now);
  }

  /** The scope an enforcement classifies against, from the records it finds. */
  function ScopeAt(fs: Fs, st: Store, req: EnforceRequest): Result<Scope, Fault>
    requires req.binding in st.bindings && req.binding.approval in st.approvals
  {
    ScopeOf(fs, FrozenScope(st.bindings[req.binding]), st.approvals[req.binding.approval].body, req.isDirectory)
  }

  /** What an enforcement finds changed; only meaningful when there is a scope. */
  function PathsAt(fs: Fs, st: Store, req: EnforceRequest): Split2
    requires req.binding in st.bindings && req.binding.approval in st.approvals && ScopeAt(fs, st, req).Ok?
  {
    Classify(fs, ScopeAt(fs, st, req).value, req.changed)
  }

  /** The store just before the transitions, and the approval it holds. */
  lemma ReadsAuthority(fs: Fs, st: Store, req: EnforceRequest)
    requires WellBehaved(fs) && Good(fs, st) && req.binding in st.bindings && req.binding.approval in st.approvals
    requires Current(st, st.bindings[req.binding], st.approvals[req.binding.approval])
    ensures
      var b, a := st.bindings[req.binding], st.approvals[req.binding.approval];
      var (st1, stop) := Checkpoint(st, b, req.head, req.clock.checkpoint);
      var (st2, scope) := ScopeFor(st1, fs, b, req.isDirectory, req.clock.roots);
      var (st3, loaded) := LoadApproval(st2, a.id, req.clock.load);
      && stop == StopOf(b, a, req.head, req.clock.checkpoint) && scope == ScopeAt(fs, st, req)
      && Good(fs, st2) && Later(st, st2) && st2.receipts == st.receipts && st2.bindings == st.bindings
      && Good(fs, st3) && Later(st, st3) && st3.receipts == st.receipts
      && loaded == Ok(ReadAt(b, a, req.clock)) && Current(st3, b, loaded.value)
  {
    hide Good, Later, LoadApproval, Checkpoint, ScopeFor, ScopeOf, BoundOn;
    var b, a := st.bindings[req.binding], st.approvals[req.binding.approval];
    Checks(fs, st, b, a, req.head, req.clock.checkpoint);
    var st1 := Checkpoint(st, b, req.head, req.clock.checkpoint).0;
    ScopeIsFrozen(fs, st1, b, req.isDirectory, req.clock.roots);
    Loads(fs, st1, a.id, req.clock.roots);
    var st2 := LoadApproval(st1, a.id, req.clock.roots).0;
    Loads(fs, st2, a.id, req.clock.load);
    LaterTransitive(st, st1, st2);
    LaterTransitive(st, st2, LoadApproval(st2, a.id, req.clock.load).0);
  }

  /** The approval a stored binding names is stored. */
  lemma BindingHasApproval(fs: Fs, st: Store, id: BindingId)
    requires Good(fs, st) && id in st.bindings
    ensures st.bindings[id].id == id && id.approval in st.approvals
    ensures Current(st, st.bindings[id], st.approvals[id.approval])
    ensures FrozenBinding(fs, st.bindings[id], st.approvals[id.approval].body)
  {
    hide ValidateBody, NormalizeBody, FrozenBinding, Justified;
    assert FrozenApproval(id.approval, st.approvals[id.approval]);
  }

  /** Everything one enforcement does, in terms of the records it found. */
  ghost predicate EnforcedAs(fs: Fs, st: Store, req: EnforceRequest, next: Store, out: Outcome)
    requires req.binding in st.bindings && req.binding.approval in st.approvals && ScopeAt(fs, st, req).Ok?
  {
    var b, a := st.bindings[req.binding], st.approvals[req.binding.approval];
    var read, paths := ReadAt(b, a, req.clock), PathsAt(fs, st, req);
    var d := Decide(StopOf(b, a, req.head, req.clock.checkpoint), paths, req.runnerFailed);
    var id := ReceiptId(b.id, req.evaluatedAt, d.compliance);
    && Current(next, out.binding, out.approval) && out.binding.id == b.id && !IsOpen(out.binding.status)
    && out.receipt == Receipt(id, StoredSplit(paths), out.binding.status, out.approval.status)
    && next.receipts == st.receipts[out.receipt.id := out.receipt]
    && (out.recovered <==> Uses(d, read, paths) && Evaluate(read, req.clock.act).status != Approved)
    && out.runFailed == (d.runFailed || out.recovered)
    && (if Uses(d, read, paths) then out.approval.status != Approved else out.approval == read)
  }

  /**
   * An enforcement raises exactly when a root on record cannot be resolved, and then ends nothing and files nothing.
   */
  lemma Enforces(fs: Fs, st: Store, req: EnforceRequest)
    requires WellBehaved(fs) && Good(fs, st) && req.binding in st.bindings
    ensures req.binding.approval in st.approvals
    ensures
      var (next, r) := Enforce(st, fs, req);
      && Good(fs, next) && Later(st, next) && (r.Ok? <==> ScopeAt(fs, st, req).Ok?)
      && (r.Ok? ==> EnforcedAs(fs, st, req, next, r.value))
      && (r.Err? ==>
            && r.error == ScopeAt(fs, st, req).error
            && next.bindings == st.bindings && next.receipts == st.receipts)
  {
    hide Good, Later, LoadApproval, Checkpoint, ScopeFor, Classify, Apply, FrozenBinding, ReadAt, StopOf, Evaluate,
      ScopeAt, StoredSplit;
    BindingHasApproval(fs, st, req.binding);
    ReadsAuthority(fs, st, req);
    if ScopeAt(fs, st, req).Ok? {
      var b, a := st.bindings[req.binding], st.approvals[req.binding.approval];
      var (st1, stop) := Checkpoint(st, b, req.head, req.clock.checkpoint);
      var st2 := ScopeFor(st1, fs, b, req.isDirectory, req.clock.roots).0;
      var (st3, loaded) := LoadApproval(st2, a.id, req.clock.load);
      var paths := PathsAt(fs, st, req);
      var d := Decide(stop, paths, req.runnerFailed);
      StopFacts(b, a, req.head, req.clock.checkpoint);
      Applies(fs, st3, b, loaded.value, d, paths, req.clock.act);
      var (st4, done) := Apply(st3, b, loaded.value, d, paths, req.clock.act);
      var id := ReceiptId(b.id, req.evaluatedAt, d.compliance);
      var receipt := Receipt(id, StoredSplit(paths), done.binding.status, done.approval.status);
      Justifies(fs, st, req);
      Closing(fs, st, st3, st4, receipt, b, a, done);
    }
  }

  lemma Justifies(fs: Fs, st: Store, req: EnforceRequest)
    requires req.binding in st.bindings && req.binding.approval in st.approvals && ScopeAt(fs, st, req).Ok?
    ensures
      var b, body := st.bindings[req.binding], st.approvals[req.binding.approval].body;
      Justified(fs, b, body, StoredSplit(PathsAt(fs, st, req)))
  {
    hide ScopeOf, StoredSplit, Classify;
    var b, body := st.bindings[req.binding], st.approvals[req.binding.approval].body;
    var paths := StoredSplit(PathsAt(fs, st, req));
    assert ClassifiedAs(fs, ScopeOf(fs, FrozenScope(b), body, req.isDirectory), req.changed, paths);
  }

  lemma StopFacts(b: Binding, a: Approval, head: Option<string>, now: int)
    ensures StopOf(b, a, head, now).None? ==> IsOpen(b.status) && a.status == Approved
  {
  }

  /** Writing the receipt completes the step. */
  lemma Closing(fs: Fs, st: Store, st3: Store, st4: Store, r: Receipt, b: Binding, a: Approval, done: Applied)
    requires Good(fs, st) && Later(st, st3) && Settled(fs, st3, st4, done)
    requires Current(st, b, a) && st3.receipts == st.receipts
    requires r.id.binding == b.id == done.binding.id && done.approval.id == a.id
    requires Justified(fs, b, a.body, r.paths)
    requires r.id.compliance == WithinScope ==> a.status == Approved && done.approval.status != Approved
    ensures
      var next := st4.(receipts := st4.receipts[r.id := r]);
      && Good(fs, next) && Later(st, next) && next.receipts == st.receipts[r.id := r]
      && Current(next, done.binding, done.approval)
  {
    hide Good;
    LaterTransitive(st, st3, st4);
    JustifiedLater(fs, b, st4.bindings[b.id], a.body, r.paths);
    if a.status == Approved {
      LiveHasNoSuccess(fs, st, a.id);
    }
    ReceiptAdded(fs, st4, r);
    LaterTransitive(st, st4, st4.(receipts := st4.receipts[r.id := r]));
  }

  /** Only the roots on record justify a receipt. */
  lemma JustifiedLater(fs: Fs, b: Binding, next: Binding, body: Body, paths: Split2)
    ensures FrozenScope(b) == FrozenScope(next) && Justified(fs, b, body, paths) ==> Justified(fs, next, body, paths)
  {
  }
}
