/** The store as an object whose records the operations rewrite, each proved against module Authority. */
module AuthorityStore {
  import opened Text
  import opened ScopePaths
  import opened Proposals
  import opened Authority
  import AuthoritySteps
  import AuthorityRuns
  import Ttl

  /** `_resolve_repo_relative_roots`: the appending loop. */
  method ResolveRepoRelativeRoots(fs: Fs, roots: seq<string>, workspace: Path, isDirectory: bool, requireNonEmpty: bool)
    returns (r: Result<seq<Path>, Fault>)
    ensures r ==
      if !isDirectory then Err(NotDirectory)
      else if requireNonEmpty && roots == [] then Err(EmptyRoots)
      else ResolveRoots(fs, roots, workspace)
  {
    if !isDirectory {
      return Err(NotDirectory);
    }
    if requireNonEmpty && roots == [] {
      return Err(EmptyRoots);
    }
    var resolved: seq<Path> := [];
    for i := 0 to |roots|
      invariant ResolveRoots(fs, roots[..i], workspace) == Ok(resolved)
    {
      assert roots[..i + 1][..i] == roots[..i];
      var one := ResolveRoot(fs, roots[i], workspace);
      if one.Err? {
        PrefixFails(fs, roots, i + 1, workspace);
        return Err(one.error);
      }
      resolved := resolved + [one.value];
    }
    assert roots[..|roots|] == roots;
    return Ok(resolved);
  }

  /** The first root that fails decides the error. */
  lemma {:induction false} PrefixFails(fs: Fs, roots: seq<string>, n: nat, workspace: Path)
    requires n <= |roots| && ResolveRoots(fs, roots[..n], workspace).Err?
    ensures ResolveRoots(fs, roots, workspace) == ResolveRoots(fs, roots[..n], workspace)
    decreases |roots|
  {
    if n < |roots| {
      var front := roots[..|roots| - 1];
      assert front[..n] == roots[..n];
      PrefixFails(fs, front, n, workspace);
    } else {
      assert roots[..n] == roots;
    }
  }

  class WriteScopeStore {
    var proposals: map<ProposalId, Body>
    var approvals: map<ApprovalId, Approval>
    var bindings: map<BindingId, Binding>
    var receipts: map<ReceiptId, Receipt>
    var revocations: map<ApprovalId, RevocationRecord>

    constructor ()
      ensures View() == EMPTY
    {
      proposals, approvals, bindings, receipts, revocations := map[], map[], map[], map[], map[];
    }

    function View(): Store
      reads this
    {
      Store(proposals, approvals, bindings, receipts, revocations)
    }

    /** The invariant of every run over a file system. */
    ghost predicate Valid(fs: Fs)
      reads this
    {
      WellBehaved(fs) && AuthoritySteps.Good(fs, View())
    }

    /** Whatever calls were made, each approval blocks once, each target is open once, each approval succeeds once. */
    lemma SingleUse(fs: Fs)
      requires Valid(fs)
      ensures AuthoritySteps.SingleUse(bindings) && AuthoritySteps.OnePerTarget(bindings)
      ensures AuthoritySteps.OneSuccess(receipts)
    {
    }

    method SaveProposal(runId: string, raw: RawBody) returns (r: Result<ProposalId, Fault>)
      modifies this
      ensures (View(), r) == Propose(old(View()), runId, raw)
      ensures forall fs :: old(Valid(fs)) ==> Valid(fs)
    {
      hide AuthoritySteps.Good, AuthoritySteps.Later;
      forall fs | Valid(fs) ensures AuthoritySteps.Good(fs, Propose(View(), runId, raw).0) {
        AuthorityRuns.ProposeKeeps(fs, View(), runId, raw);
      }
      var frozen := NormalizeBody(raw);
      if frozen.None? {
        return Err(InvalidBody);
      }
      if Strip(runId) == "" {
        return Err(MissingRun);
      }
      var id := ProposalId(Strip(runId), HashOf(frozen.value));
      var again := NormalizeBody(frozen.value.AsRaw());
      if again.None? || HashOf(again.value) != id.hash {
        return Err(Corrupt);
      }
      if id in proposals {
        return if LoadProposal(View(), id).Ok? then Ok(id) else Err(Corrupt);
      }
      proposals := proposals[id := frozen.value];
      return Ok(id);
    }

    /** A TTL of the grammar mints an approval that outlives its grant; any other text mints nothing. */
    method ApproveProposal(id: ProposalId, ttl: string, who: string, approvedAt: int, now: int)
      returns (r: Result<Approval, Fault>)
      modifies this`approvals
      ensures forall d, h, m, s :: Ttl.Spells(Lower(Strip(ttl)), d, h, m, s) ==>
        var seconds := Ttl.Amount(d) * 86400 + Ttl.Amount(h) * 3600 + Ttl.Amount(m) * 60 + Ttl.Amount(s);
        (View(), r) == Approve(old(View()), id, seconds, who, approvedAt, now)
      ensures (forall d, h, m, s :: !Ttl.Spells(Lower(Strip(ttl)), d, h, m, s)) ==> r.Err? && View() == old(View())
      ensures r.Ok? && View() != old(View()) ==>
        r.value.id.approvedAt == approvedAt < r.value.id.expiresAt && now < r.value.id.expiresAt
      ensures forall fs :: old(Valid(fs)) ==> Valid(fs)
    {
      hide AuthoritySteps.Good, Ttl.Spells, Ttl.Amount, IsOperator, Approve, Strip, Lower, WellBehaved;
      if !IsOperator(who) {
        OnlyOperators(View(), id, who, approvedAt, now);
        return Err(NotOperator);
      }
      var duration := Ttl.ParseTtl(ttl);
      if duration.Err? {
        return Err(InvalidTtl);
      }
      r := MintApproval(id, duration.value, who, approvedAt, now);
    }

    static lemma OnlyOperators(st: Store, id: ProposalId, who: string, approvedAt: int, now: int)
      requires !IsOperator(who)
      ensures forall seconds :: Approve(st, id, seconds, who, approvedAt, now) == (st, Err(NotOperator))
    {
    }

    method MintApproval(id: ProposalId, seconds: nat, who: string, approvedAt: int, now: int)
      returns (r: Result<Approval, Fault>)
      modifies this`approvals
      ensures (View(), r) == Approve(old(View()), id, seconds, who, approvedAt, now)
      ensures r.Ok? && View() != old(View()) ==>
        r.value.id.approvedAt == approvedAt < r.value.id.expiresAt && now < r.value.id.expiresAt
      ensures forall fs :: old(Valid(fs)) ==> Valid(fs)
    {
      hide AuthoritySteps.Good, AuthoritySteps.Later;
      forall fs | Valid(fs) ensures AuthoritySteps.Good(fs, Approve(View(), id, seconds, who, approvedAt, now).0) {
        AuthorityRuns.ApproveKeeps(fs, View(), id, seconds, who, approvedAt, now);
      }
      if !IsOperator(who) {
        return Err(NotOperator);
      }
      var loaded := LoadProposal(View(), id);
      if loaded.Err? {
        return Err(loaded.error);
      }
      var body := ValidateBody(loaded.value.AsRaw());
      if body.None? {
        return Err(InvalidBody);
      }
      var aid := ApprovalId(id, approvedAt, Strip(who), approvedAt + seconds, HashOf(body.value));
      if aid.hash != id.hash {
        return Err(HashMismatch);
      }
      if aid.expiresAt <= approvedAt {
        return Err(NotPositive);
      }
      if now >= aid.expiresAt {
        return Err(AlreadyExpired);
      }
      if aid in approvals {
        return Verify(approvals[aid]);
      }
      var minted := Approval(aid, body.value, Approved);
      approvals := approvals[aid := minted];
      return Ok(minted);
    }

    method LoadApprovalRecord(id: ApprovalId, now: int) returns (r: Result<Approval, Fault>)
      modifies this`approvals
      ensures (View(), r) == LoadApproval(old(View()), id, now)
      ensures forall fs :: old(Valid(fs)) ==> Valid(fs)
    {
      hide AuthoritySteps.Good, AuthoritySteps.Later;
      forall fs | Valid(fs) ensures AuthoritySteps.Good(fs, LoadApproval(View(), id, now).0) {
        AuthoritySteps.LoadKeeps(fs, View(), id, now);
      }
      if id !in approvals {
        return Err(NotFound);
      }
      var verified := Verify(approvals[id]);
      if verified.Err? {
        return verified;
      }
      var seen := Evaluate(verified.value, now);
      if seen.status != verified.value.status {
        approvals := approvals[id := seen];
      }
      return Ok(seen);
    }

    method RevokeApproval(id: ApprovalId, reason: string, who: string, revokedAt: int, now: int)
      returns (r: Result<Approval, Fault>)
      modifies this`approvals, this`revocations
      ensures (View(), r) == Revoke(old(View()), id, reason, who, revokedAt, now)
      ensures forall fs :: old(Valid(fs)) ==> Valid(fs)
    {
      hide AuthoritySteps.Good, AuthoritySteps.Later, Strip;
      forall fs | Valid(fs) ensures AuthoritySteps.Good(fs, Revoke(View(), id, reason, who, revokedAt, now).0) {
        AuthoritySteps.Revokes(fs, View(), id, reason, who, revokedAt, now);
      }
      if !IsOperator(who) {
        return Err(NotOperator);
      }
      if Strip(reason) == "" {
        return Err(MissingReason);
      }
      r := LoadApprovalRecord(id, now);
      if r.Err? {
        return r;
      }
      if r.value.status == Revoked {
        return if id in revocations then r else Err(NotFound);
      }
      if r.value.status != Approved {
        return Err(Terminal);
      }
      revocations := revocations[id := RevocationRecord(Strip(who), revokedAt, Strip(reason))];
      var updated := r.value.(status := Revoked);
      approvals := approvals[id := updated];
      return Ok(updated);
    }

    method ConsumeApproval(id: ApprovalId, now: int) returns (r: Result<Approval, Fault>)
      modifies this`approvals
      ensures (View(), r) == Consume(old(View()), id, now)
      ensures forall fs :: old(Valid(fs)) ==> Valid(fs)
    {
      hide AuthoritySteps.Good, AuthoritySteps.Later;
      forall fs | Valid(fs) ensures AuthoritySteps.Good(fs, Consume(View(), id, now).0) {
        AuthoritySteps.Consumes(fs, View(), id, now);
      }
      r := LoadApprovalRecord(id, now);
      if r.Err? {
        return r;
      }
      if r.value.status != Approved {
        return Err(IllegalTransition);
      }
      var updated := r.value.(status := Consumed);
      approvals := approvals[id := updated];
      return Ok(updated);
    }

    method TransitionBindingStatus(id: BindingId, to: BindingStatus) returns (r: Result<Binding, Fault>)
      modifies this`bindings
      ensures (View(), r) == TransitionBinding(old(View()), id, to)
      ensures forall fs :: old(Valid(fs)) ==> Valid(fs)
    {
      hide AuthoritySteps.Good, AuthoritySteps.Later;
      forall fs | Valid(fs) ensures AuthoritySteps.Good(fs, TransitionBinding(View(), id, to).0) {
        AuthoritySteps.BindingMoved(fs, View(), id, to);
      }
      if id !in bindings {
        return Err(NotFound);
      }
      if !MayBecome(bindings[id].status, to) {
        return Err(IllegalTransition);
      }
      var updated := bindings[id].(status := to);
      bindings := bindings[id := updated];
      return Ok(updated);
    }

    method BindApproval(fs: Fs, req: BindRequest, now: int) returns (r: Result<Binding, Fault>)
      modifies this`approvals, this`bindings
      ensures (View(), r) == CreateBinding(old(View()), fs, req, now)
      ensures old(Valid(fs)) ==> Valid(fs)
    {
      hide AuthoritySteps.Good, AuthoritySteps.Later;
      if Valid(fs) {
        AuthorityRuns.BindKeeps(fs, View(), req, now);
      }
      if Strip(req.runId) == "" {
        return Err(MissingRun);
      }
      var loaded := LoadApprovalRecord(req.approval, now);
      if loaded.Err? {
        return Err(loaded.error);
      }
      var a := loaded.value;
      match a.status {
        case Expired => return Err(ApprovalExpired);
        case Revoked => return Err(ApprovalRevoked);
        case Consumed => return Err(ApprovalConsumed);
        case Approved =>
      }
      var checked := CheckRequest(fs, a, req);
      if checked.Err? {
        return Err(checked.error);
      }
      if Blocking(View(), a.id) {
        return Err(AlreadyBound);
      }
      if Busy(View(), a.body.targetId) {
        return Err(TargetBusy);
      }
      var writable := ResolveRepoRelativeRoots(fs, a.body.allowedRoots, checked.value, req.isDirectory, true);
      if writable.Err? {
        return Err(writable.error);
      }
      var denied := ResolveRepoRelativeRoots(fs, a.body.deniedRoots, checked.value, req.isDirectory, false);
      if denied.Err? {
        return Err(denied.error);
      }
      var id := BindingId(a.id, Strip(req.runId), req.boundAt, a.body.targetId);
      if id in bindings {
        return Ok(bindings[id]);
      }
      var kept := Stored(Scope(checked.value, writable.value, denied.value));
      var minted := Binding(id, a.id.hash, a.body.baseSha, kept.workspace, kept.allowed, kept.denied, Active);
      bindings := bindings[id := minted];
      return Ok(minted);
    }

    method CheckAuthority(b: Binding, head: Option<string>, now: int) returns (stop: Option<Stop>)
      modifies this`approvals
      ensures (View(), stop) == Checkpoint(old(View()), b, head, now)
    {
      if !IsOpen(b.status) {
        return Some(BindingNotActive);
      }
      var loaded := LoadApprovalRecord(b.id.approval, now);
      if loaded.Err? {
        return Some(AuthorityRevoked);
      }
      match loaded.value.status {
        case Expired => return Some(AuthorityExpired);
        case Revoked => return Some(AuthorityRevoked);
        case Consumed => return Some(AuthorityConsumed);
        case Approved =>
      }
      return if head == Some(b.baseSha) then None else Some(HeadMoved);
    }

    method LoadScope(fs: Fs, b: Binding, isDirectory: bool, now: int) returns (scope: Result<Scope, Fault>)
      modifies this`approvals
      ensures (View(), scope) == ScopeFor(old(View()), fs, b, isDirectory, now)
    {
      var loaded := LoadApprovalRecord(b.id.approval, now);
      if loaded.Err? {
        return Ok(FrozenScope(b));
      }
      var workspace := fs.resolve(b.workspace);
      if workspace.None? {
        return Err(Unresolvable);
      }
      var fallback := Scope(workspace.value, b.writable, b.denied);
      var allowed := ResolveRepoRelativeRoots(fs, loaded.value.body.allowedRoots, workspace.value, isDirectory, true);
      if allowed.Err? {
        return if allowed.error == Unresolvable then Err(Unresolvable) else Ok(fallback);
      }
      var denied := ResolveRepoRelativeRoots(fs, loaded.value.body.deniedRoots, workspace.value, isDirectory, false);
      if denied.Err? {
        return if denied.error == Unresolvable then Err(Unresolvable) else Ok(fallback);
      }
      return ResolveStored(fs, FrozenScope(b), workspace.value, allowed.value);
    }

    /** Classify, choose the compliance, move both records, write the receipt. */
    method EnforceMutations(fs: Fs, req: EnforceRequest) returns (r: Result<Outcome, Fault>)
      modifies this`approvals, this`bindings, this`receipts, this`revocations
      ensures (View(), r) == Enforce(old(View()), fs, req)
      ensures old(Valid(fs)) ==> Valid(fs)
    {
      hide AuthoritySteps.Good, WellBehaved, LoadApproval, Checkpoint, ScopeFor, Classify, Apply, Decide, StoredSplit;
      if Valid(fs) {
        AuthorityRuns.EnforceKeeps(fs, View(), req);
      }
      if req.binding !in bindings {
        return Err(NotFound);
      }
      var binding := bindings[req.binding];
      var stop := CheckAuthority(binding, req.head, req.clock.checkpoint);
      var scope := LoadScope(fs, binding, req.isDirectory, req.clock.roots);
      if scope.Err? {
        return Err(scope.error);
      }
      var paths := ClassifyChangedPaths(fs, scope.value, req.changed);
      var decision := Decide(stop, paths, req.runnerFailed);
      var loaded := LoadApprovalRecord(binding.id.approval, req.clock.load);
      if loaded.Err? {
        return Err(loaded.error);
      }
      var done := ApplyDecision(binding, loaded.value, decision, paths, req.clock.act);
      var id := ReceiptId(binding.id, req.evaluatedAt, decision.compliance);
      var receipt := Receipt(id, StoredSplit(paths), done.binding.status, done.approval.status);
      receipts := receipts[receipt.id := receipt];
      return Ok(Outcome(receipt, done.binding, done.approval, decision.runFailed || done.recovered, done.recovered));
    }

    /** The authority transitions of one compliance, and the handler for those that fail. */
    method ApplyDecision(b: Binding, a: Approval, decision: Decision, paths: Split2, act: int) returns (done: Applied)
      modifies this`approvals, this`bindings, this`revocations
      ensures (View(), done) == Apply(old(View()), b, a, decision, paths, act)
    {
      match decision.compliance {
        case WithinScope =>
          var moved := TransitionBindingStatus(b.id, Completed);
          if moved.Err? {
            done := HandleFailure(b, a, act);
          } else if paths.inScope != [] {
            done := SpendApproval(moved.value, a, false, act);
          } else {
            done := Applied(moved.value, a, false);
          }
        case NoMutation =>
          var closed := CloseBinding(b, if decision.runFailed then Failed else Completed);
          done := Applied(closed, a, false);
        case BaseShaMismatch =>
          var closed := CloseBinding(b, Failed);
          done := Applied(closed, a, false);
        case ScopeExceeded =>
          var closed := CloseBinding(b, Failed);
          done := Applied(closed, a, false);
          if a.status == Approved {
            done := SpendApproval(closed, a, true, act);
          }
        case Partial =>
          var closed := CloseBinding(b, Failed);
          done := Applied(closed, a, false);
          if a.status == Approved && (paths.inScope != [] || paths.outOfScope != []) {
            done := SpendApproval(closed, a, paths.outOfScope != [], act);
          }
      }
    }

    /** Revoke or consume; a refused transition goes to the handler. */
    method SpendApproval(b: Binding, a: Approval, revoke: bool, act: int) returns (done: Applied)
      modifies this`approvals, this`bindings, this`revocations
      ensures (View(), done) == Spend(old(View()), b, a, revoke, act)
    {
      var spent;
      if revoke {
        spent := RevokeApproval(a.id, BREACH_REASON, BREACH_REVOKER, act, act);
      } else {
        spent := ConsumeApproval(a.id, act);
      }
      if spent.Err? {
        done := HandleFailure(b, a, act);
      } else {
        done := Applied(b, spent.value, false);
      }
    }

    method HandleFailure(b: Binding, a: Approval, act: int) returns (done: Applied)
      modifies this`approvals, this`bindings
      ensures (View(), done) == Recover(old(View()), b, a, act)
    {
      var closed := CloseBinding(b, Failed);
      var again := LoadApprovalRecord(b.id.approval, act);
      done := Applied(closed, if again.Ok? then again.value else a, true);
    }

    /** `audit_write_scope` for an approval id: only the binding bound last is looked at. */
    method AuditApproval(id: ApprovalId, now: int) returns (r: Result<Residual, Fault>, latest: Option<BindingId>)
      modifies this`approvals
      ensures IsLatest(bindings, id, latest)
      ensures View() == LoadApproval(old(View()), id, now).0
      ensures
        var loaded := LoadApproval(old(View()), id, now).1;
        r == if loaded.Err? then Err(loaded.error)
             else Ok(ResidualOf(Some(loaded.value.status), StatusOf(bindings, latest)))
    {
      latest := None;
      var pending := bindings.Keys;
      while pending != {}
        invariant pending <= bindings.Keys
        invariant IsLatest(map b | b in bindings.Keys - pending :: bindings[b], id, latest)
        decreases |pending|
      {
        var next :| next in pending;
        pending := pending - {next};
        if next.approval == id && (latest.None? || latest.value.boundAt <= next.boundAt) {
          latest := Some(next);
        }
      }
      assert bindings == map b | b in bindings.Keys - {} :: bindings[b];
      var loaded := LoadApprovalRecord(id, now);
      if loaded.Err? {
        return Err(loaded.error), latest;
      }
      r := Ok(ResidualOf(Some(loaded.value.status), StatusOf(bindings, latest)));
    }

    method CloseBinding(b: Binding, to: BindingStatus) returns (closed: Binding)
      modifies this`bindings
      ensures (View(), closed) == Close(old(View()), b, to)
    {
      closed := b;
      if IsOpen(b.status) {
        var moved := TransitionBindingStatus(b.id, to);
        if moved.Ok? {
          closed := moved.value;
        }
      }
    }
  }
}
