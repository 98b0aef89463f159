/** The audit of an approval looks at its last binding, the binder at all of them: over every run they agree. */
module Audit {
  import opened Text
  import opened ScopePaths
  import opened Proposals
  import opened Authority
  import opened AuthoritySteps
  import opened AuthorityRuns

  /** Each bind of a run is stamped later than every binding the approval already has. */
  ghost predicate Rising(fs: Fs, st: Store, ops: seq<Op>)
    decreases |ops|
  {
    ops == [] || (StampsLater(st, ops[0]) && Rising(fs, Step(fs, st, ops[0]), ops[1..]))
  }

  ghost predicate StampsLater(st: Store, op: Op) {
    op.Binding? || op.LateBinding? ==>
      forall id :: id in st.bindings && id.approval == op.req.approval ==> id.boundAt < op.req.boundAt
  }

  /** Only the binding stamped last may block; all earlier ones of its approval failed or were withdrawn. */
  ghost predicate OnlyLastBlocks(bindings: map<BindingId, Binding>) {
    forall x, y :: x in bindings && y in bindings && x.approval == y.approval && x != y && x.boundAt <= y.boundAt ==>
      !Blocks(bindings[x].status)
  }

  lemma FollowingBlocks(bindings: map<BindingId, Binding>, next: map<BindingId, Binding>)
    requires OnlyLastBlocks(bindings) && BindingsLater(bindings, next) && next.Keys == bindings.Keys
    ensures OnlyLastBlocks(next)
  {
  }

  // ---- Only binds add bindings -----------------------------------------------------------------

  lemma ReadsAddNone(fs: Fs, st: Store, b: Authority.Binding, head: Option<string>, isDirectory: bool, now: int)
    ensures LoadApproval(st, b.id.approval, now).0.bindings == st.bindings
    ensures Checkpoint(st, b, head, now).0.bindings == st.bindings
    ensures ScopeFor(st, fs, b, isDirectory, now).0.bindings == st.bindings
  {
    hide Verify, Evaluate, ScopeOf, FrozenScope;
  }

  lemma EnforceAddsNone(fs: Fs, st: Store, req: EnforceRequest)
    ensures Enforce(st, fs, req).0.bindings.Keys == st.bindings.Keys
  {
    hide Classify, Apply, StoredSplit, LoadApproval, Checkpoint, ScopeFor, Decide;
    if req.binding in st.bindings {
      var b := st.bindings[req.binding];
      var (st1, stop) := Checkpoint(st, b, req.head, req.clock.checkpoint);
      var (st2, scope) := ScopeFor(st1, fs, b, req.isDirectory, req.clock.roots);
      var (st3, loaded) := LoadApproval(st2, b.id.approval, req.clock.load);
      ReadsAddNone(fs, st, b, req.head, req.isDirectory, req.clock.checkpoint);
      ReadsAddNone(fs, st1, b, req.head, req.isDirectory, req.clock.roots);
      ReadsAddNone(fs, st2, b, req.head, req.isDirectory, req.clock.load);
      if scope.Ok? && loaded.Ok? {
        var paths := Classify(fs, scope.value, req.changed);
        ApplyAddsNone(st3, b, loaded.value, Decide(stop, paths, req.runnerFailed), paths, req.clock.act);
      }
    }
  }

  lemma ApplyAddsNone(st: Store, b: Authority.Binding, a: Approval, d: Decision, paths: Split2, now: int)
    ensures Apply(st, b, a, d, paths, now).0.bindings.Keys == st.bindings.Keys
  {
    hide Spend, Recover, MayBecome;
    forall s: Store, revoke: bool, c: Authority.Binding
      ensures Spend(s, c, a, revoke, now).0.bindings.Keys == s.bindings.Keys
    {
      SpendAddsNone(s, c, a, revoke, now);
    }
    forall s: Store, c: Authority.Binding ensures Recover(s, c, a, now).0.bindings.Keys == s.bindings.Keys {
      RecoverAddsNone(s, c, a, now);
    }
  }

  lemma RecoverAddsNone(st: Store, b: Authority.Binding, a: Approval, now: int)
    ensures Recover(st, b, a, now).0.bindings.Keys == st.bindings.Keys
  {
    hide Verify, Evaluate;
  }

  lemma SpendAddsNone(st: Store, b: Authority.Binding, a: Approval, revoke: bool, now: int)
    ensures Spend(st, b, a, revoke, now).0.bindings.Keys == st.bindings.Keys
  {
    hide Verify, Evaluate, IsOperator, Recover;
    var st1 :=
      if revoke then Revoke(st, a.id, BREACH_REASON, BREACH_REVOKER, now, now).0 else Consume(st, a.id, now).0;
    RecoverAddsNone(st1, b, a, now);
  }

  lemma OthersAddNone(fs: Fs, st: Store, op: Op)
    requires !op.Binding? && !op.LateBinding?
    ensures Step(fs, st, op).bindings.Keys == st.bindings.Keys
  {
    hide Verify, Evaluate, IsOperator, NormalizeBody, ValidateBody, LoadProposal, Enforce, MayBecome;
    if op.Enforcing? {
      EnforceAddsNone(fs, st, op.request);
    }
  }

  // ---- The invariant ---------------------------------------------------------------------------

  lemma CommitKeepsLast(fs: Fs, st: Store, a: Approval, req: BindRequest, workspace: Path)
    requires OnlyLastBlocks(st.bindings)
    requires forall id :: id in st.bindings && id.approval == a.id ==> id.boundAt < req.boundAt
    ensures OnlyLastBlocks(CommitBinding(st, fs, a, req, workspace).0.bindings)
  {
    hide ResolveRoots, Strip, Stored;
    if !Blocking(st, a.id) {
      assert forall id :: id in st.bindings && id.approval == a.id ==> !Blocks(st.bindings[id].status);
    }
  }

  lemma BindKeepsLast(fs: Fs, st: Store, op: Op)
    requires WellBehaved(fs) && Good(fs, st) && OnlyLastBlocks(st.bindings) && StampsLater(st, op)
    requires op.Binding? || op.LateBinding?
    ensures OnlyLastBlocks(Step(fs, st, op).bindings)
  {
    hide Good, LoadApproval, CommitBinding, OnlyLastBlocks, Strip;
    if op.req.approval in st.approvals {
      StoredId(fs, st, op.req.approval);
      if op.Binding? {
        Loads(fs, st, op.req.approval, op.now);
        var (st1, checked) := CheckApproval(st, op.req.approval, op.now);
        if checked.Ok? && CheckRequest(fs, checked.value, op.req).Ok? {
          CommitKeepsLast(fs, st1, checked.value, op.req, CheckRequest(fs, checked.value, op.req).value);
        }
      } else if op.req.workspace.Some? && fs.resolve(op.req.workspace.value).Some? {
        CommitKeepsLast(fs, st, st.approvals[op.req.approval], op.req, fs.resolve(op.req.workspace.value).value);
      }
    } else {
      LoadKeeps(fs, st, op.req.approval, if op.Binding? then op.now else 0);
    }
  }

  lemma {:induction false} RisingRunKeepsLast(fs: Fs, st: Store, ops: seq<Op>)
    requires WellBehaved(fs) && Good(fs, st) && OnlyLastBlocks(st.bindings) && Rising(fs, st, ops)
    ensures Good(fs, RunFrom(fs, st, ops)) && OnlyLastBlocks(RunFrom(fs, st, ops).bindings)
    decreases |ops|
  {
    hide Good, Step, OnlyLastBlocks, StampsLater, BindingsLater, ApprovalsLater;
    if ops != [] {
      var next := Step(fs, st, ops[0]);
      StepKeeps(fs, st, ops[0]);
      if ops[0].Binding? || ops[0].LateBinding? {
        BindKeepsLast(fs, st, ops[0]);
      } else {
        OthersAddNone(fs, st, ops[0]);
        FollowingBlocks(st.bindings, next.bindings);
      }
      RisingRunKeepsLast(fs, next, ops[1..]);
    }
  }

  // ---- Agreement -------------------------------------------------------------------------------

  /** What the audit says about `id`, looking at `latest`, is what the binder's checks on the approval would do. */
  ghost predicate Agrees(st: Store, id: ApprovalId, now: int, latest: Option<BindingId>) {
    var audited := LoadApproval(st, id, now).1;
    var (checkedStore, checked) := CheckApproval(st, id, now);
    && audited.Ok?
    && (ResidualOf(Some(audited.value.status), StatusOf(st.bindings, latest)) == RequiresNewBinding
        <==> checked.Ok? && !Blocking(checkedStore, id))
  }

  /** What agreement comes down to when the approval is live: the binding looked at blocks if any does. */
  lemma AgreesMeans(fs: Fs, st: Store, id: ApprovalId, now: int, latest: Option<BindingId>)
    requires Good(fs, st) && id in st.approvals && IsLatest(st.bindings, id, latest)
    ensures Evaluate(st.approvals[id], now).status != Approved ==> Agrees(st, id, now, latest)
    ensures Evaluate(st.approvals[id], now).status == Approved ==>
      (Agrees(st, id, now, latest) <==>
         (Blocking(st, id) <==> latest.Some? && Blocks(st.bindings[latest.value].status)))
  {
    hide Good, LoadApproval, Evaluate, Blocking;
    Loads(fs, st, id, now);
    SameBlocking(st, CheckApproval(st, id, now).0, id);
  }

  lemma SameBlocking(a: Store, b: Store, id: ApprovalId)
    ensures a.bindings == b.bindings ==> (Blocking(a, id) <==> Blocking(b, id))
  {
  }

  /** When only the last may block, the last decides. */
  lemma LastDecides(st: Store, id: ApprovalId, latest: Option<BindingId>)
    requires OnlyLastBlocks(st.bindings) && IsLatest(st.bindings, id, latest)
    ensures Blocking(st, id) <==> latest.Some? && Blocks(st.bindings[latest.value].status)
  {
  }

  /**
   * The audit reports that only a new binding is missing exactly when the checks a bind makes on the
   * approval would pass.
   */
  lemma AuditAgreesWithBinder(fs: Fs, ops: seq<Op>, id: ApprovalId, now: int, latest: Option<BindingId>)
    requires WellBehaved(fs) && Rising(fs, EMPTY, ops)
    requires id in RunFrom(fs, EMPTY, ops).approvals && IsLatest(RunFrom(fs, EMPTY, ops).bindings, id, latest)
    ensures Agrees(RunFrom(fs, EMPTY, ops), id, now, latest)
  {
    hide RunFrom, Rising, Agrees, Evaluate, Good, OnlyLastBlocks, IsLatest;
    assert Good(fs, EMPTY) && OnlyLastBlocks(EMPTY.bindings) by { StartsRight(fs); }
    RisingRunKeepsLast(fs, EMPTY, ops);
    LastDecides(RunFrom(fs, EMPTY, ops), id, latest);
    AgreesMeans(fs, RunFrom(fs, EMPTY, ops), id, now, latest);
  }

  lemma StartsRight(fs: Fs)
    ensures Good(fs, EMPTY) && OnlyLastBlocks(EMPTY.bindings)
  {
  }

  // ---- Exactly when they agree -----------------------------------------------------------------

  /** A blocking binding is stamped later than every other of its approval. */
  ghost predicate BlockerIsNewest(bindings: map<BindingId, Binding>, id: ApprovalId) {
    forall x, y :: x in bindings && y in bindings && x.approval == id && y.approval == id && x != y ==>
      Blocks(bindings[x].status) ==> y.boundAt < x.boundAt
  }

  lemma {:induction false} MaxStamp(ids: set<BindingId>)
    requires ids != {}
    ensures exists m :: m in ids && forall k :: k in ids ==> k.boundAt <= m.boundAt
    decreases |ids|
  {
    var one :| one in ids;
    if ids != {one} {
      assert ids == (ids - {one}) + {one};
      MaxStamp(ids - {one});
      var m :| m in ids - {one} && forall k :: k in ids - {one} ==> k.boundAt <= m.boundAt;
      var top := if one.boundAt <= m.boundAt then m else one;
      assert top in ids && forall k :: k in ids ==> k.boundAt <= top.boundAt;
    }
  }

  /** A blocker that is not the newest is hidden by some other record listed last. */
  lemma HiddenBlocker(st: Store, id: ApprovalId, x: BindingId, y: BindingId) returns (last: BindingId)
    requires x in st.bindings && y in st.bindings && x.approval == id && y.approval == id && x != y
    requires x.boundAt <= y.boundAt
    ensures last != x && IsLatest(st.bindings, id, Some(last))
  {
    var others := set k | k in st.bindings.Keys && k.approval == id && k != x;
    assert y in others;
    MaxStamp(others);
    last :| last in others && forall k :: k in others ==> k.boundAt <= last.boundAt;
    forall k | k in st.bindings && k.approval == id ensures k.boundAt <= last.boundAt {
      assert k != x ==> k in others;
    }
  }

  /**
   * On a live approval, whatever record ends up last in the listing, the audit agrees with the binder exactly
   * when a blocking binding is always stamped later than every other. An approval that is not live never divides them.
   */
  lemma AuditAgreesIff(fs: Fs, st: Store, id: ApprovalId, now: int)
    requires WellBehaved(fs) && Reachable(fs, st) && id in st.approvals
    ensures (forall latest :: IsLatest(st.bindings, id, latest) ==> Agrees(st, id, now, latest)) <==>
      (Evaluate(st.approvals[id], now).status == Approved ==> BlockerIsNewest(st.bindings, id))
  {
    hide Good, Agrees, Reachable, Evaluate, Blocks;
    ReachableIsGood(fs, st);
    forall latest | IsLatest(st.bindings, id, latest)
      ensures BlockerIsNewest(st.bindings, id) ==> Agrees(st, id, now, latest)
    {
      AgreesMeans(fs, st, id, now, latest);
    }
    forall latest | IsLatest(st.bindings, id, latest) && Evaluate(st.approvals[id], now).status != Approved
      ensures Agrees(st, id, now, latest)
    {
      AgreesMeans(fs, st, id, now, latest);
    }
    if Evaluate(st.approvals[id], now).status == Approved && !BlockerIsNewest(st.bindings, id) {
      var x, y :| x in st.bindings && y in st.bindings && x.approval == id && y.approval == id && x != y
        && Blocks(st.bindings[x].status) && x.boundAt <= y.boundAt;
      var last := HiddenBlocker(st, id, x, y);
      AgreesMeans(fs, st, id, now, Some(last));
      OnlyOneBlocks(fs, st, x, last);
    }
  }

  lemma OnlyOneBlocks(fs: Fs, st: Store, x: BindingId, y: BindingId)
    requires Good(fs, st) && x in st.bindings && y in st.bindings && x.approval == y.approval && x != y
    requires Blocks(st.bindings[x].status)
    ensures !Blocks(st.bindings[y].status) && Blocking(st, x.approval)
  {
    hide ProposalsFrozen, ApprovalsFrozen, BindingsFrozen, ReceiptsHonest, OnePerTarget;
  }
}
