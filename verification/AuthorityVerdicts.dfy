/** What each write-scope operation answers and leaves behind, read off its inputs and the records it finds. */
module AuthorityVerdicts {
  import opened Text
  import opened ScopePaths
  import opened Proposals
  import opened Authority
  import opened AuthoritySteps
  import opened AuthorityRuns

  // ---- Enforcement -----------------------------------------------------------------------------

  /** The approval is approved and none of the readings finds it due. */
  predicate LiveAt(a: Approval, now: int) {
    a.status == Approved && now < a.id.expiresAt
  }

  /** The run was allowed to go on to its end: open binding, live approval, unmoved revision. */
  predicate Unhindered(b: Authority.Binding, a: Approval, req: EnforceRequest) {
    && b.status in {Active, Suspended} && LiveAt(a, req.clock.checkpoint) && req.head == Some(b.baseSha)
  }

  /** The revision had moved under an open binding with a live approval. */
  predicate Moved(b: Authority.Binding, a: Approval, req: EnforceRequest) {
    && b.status in {Active, Suspended} && LiveAt(a, req.clock.checkpoint) && req.head != Some(b.baseSha)
  }

  /** How the run is judged. */
  function Judged(b: Authority.Binding, a: Approval, paths: Split2, req: EnforceRequest): Compliance {
    if Moved(b, a, req) then BaseShaMismatch
    else if paths.outOfScope != [] then ScopeExceeded
    else if paths.inScope == [] then NoMutation
    else if Unhindered(b, a, req) && !req.runnerFailed then WithinScope
    else Partial
  }

  /** Where the binding ends: an open one completes only after an unhindered run with nothing out of scope. */
  function BindingAfter(b: Authority.Binding, a: Approval, paths: Split2, req: EnforceRequest): BindingStatus {
    if b.status !in {Active, Suspended} then b.status
    else if Unhindered(b, a, req) && !req.runnerFailed && paths.outOfScope == [] then Completed
    else Failed
  }

  /** The approval when the transitions begin: due if any reading so far found it due. */
  function StatusRead(b: Authority.Binding, a: Approval, req: EnforceRequest): ApprovalStatus {
    if a.status != Approved then a.status
    else if (b.status in {Active, Suspended} && a.id.expiresAt <= req.clock.checkpoint)
      || a.id.expiresAt <= req.clock.roots || a.id.expiresAt <= req.clock.load then Expired
    else Approved
  }

  /** Where the approval ends: a change spends it, by revocation when anything lay out of scope. */
  function ApprovalAfter(b: Authority.Binding, a: Approval, paths: Split2, req: EnforceRequest): ApprovalStatus {
    var read := StatusRead(b, a, req);
    if read != Approved || Moved(b, a, req) || (paths.inScope == [] && paths.outOfScope == []) then read
    else if a.id.expiresAt <= req.clock.act then Expired
    else if paths.outOfScope != [] then Revoked
    else Consumed
  }

  /** The store with one binding and one approval moved on. */
  function Moves(st: Store, b: Authority.Binding, to: BindingStatus, a: Approval, end: ApprovalStatus): Store {
    st.(bindings := st.bindings[b.id := b.(status := to)], approvals := st.approvals[a.id := a.(status := end)])
  }

  function BreachRecord(act: int): RevocationRecord {
    RevocationRecord(Strip(BREACH_REVOKER), act, Strip(BREACH_REASON))
  }

  lemma MovesNothing(st: Store, b: Authority.Binding, a: Approval)
    requires Current(st, b, a)
    ensures Moves(st, b, b.status, a, a.status) == st
  {
    assert st.bindings[b.id := b] == st.bindings && st.approvals[a.id := a] == st.approvals;
  }

  lemma ClosesExactly(st: Store, b: Authority.Binding, a: Approval, to: BindingStatus)
    requires Current(st, b, a) && !IsOpen(to)
    ensures
      var end := if IsOpen(b.status) then to else b.status;
      Close(st, b, to) == (Moves(st, b, end, a, a.status), b.(status := end))
  {
    MovesNothing(st, b, a);
  }

  /** Reading the approval leaves it as it is evaluated. */
  lemma LoadsExactly(fs: Fs, st: Store, b: Authority.Binding, a: Approval, now: int)
    requires Good(fs, st) && Current(st, b, a)
    ensures
      var seen := Evaluate(a, now);
      LoadApproval(st, a.id, now) == (Moves(st, b, b.status, a, seen.status), Ok(seen))
    ensures
      var next := LoadApproval(st, a.id, now).0;
      Good(fs, next) && Current(next, b, Evaluate(a, now))
  {
    hide Good, LoadApproval;
    Loads(fs, st, a.id, now);
    assert st.bindings[b.id := b] == st.bindings;
  }

  /** What an attempt to spend leaves: an approval that fell due is only read again. */
  lemma SpendsExactly(fs: Fs, st: Store, b: Authority.Binding, a: Approval, revoke: bool, now: int)
    requires Good(fs, st) && Current(st, b, a) && !IsOpen(b.status) && (revoke ==> a.status == Approved)
    ensures
      var seen := Evaluate(a, now).status;
      var end := if seen != Approved then seen else if revoke then Revoked else Consumed;
      var next := Moves(st, b, b.status, a, end);
      Spend(st, b, a, revoke, now) == (
        if end == Revoked && revoke then next.(revocations := st.revocations[a.id := BreachRecord(now)]) else next,
        Applied(b, a.(status := end), seen != Approved))
  {
    hide Good, LoadApproval, Strip, IsOperator;
    BreachRevokerIsOperator();
    LoadsExactly(fs, st, b, a, now);
    var st1 := LoadApproval(st, a.id, now).0;
    var seen := Evaluate(a, now);
    LoadsExactly(fs, st1, b, seen, now);
    assert Evaluate(seen, now) == seen;
    MovesNothing(st1, b, seen);
    assert st1.approvals[a.id := a.(status := Revoked)] == st.approvals[a.id := a.(status := Revoked)];
    assert st1.approvals[a.id := a.(status := Consumed)] == st.approvals[a.id := a.(status := Consumed)];
  }

  /** Everything the transitions of one enforcement change. */
  lemma AppliesExactly(fs: Fs, st: Store, b: Authority.Binding, a: Approval, d: Decision, paths: Split2, act: int)
    requires Good(fs, st) && Current(st, b, a) && (d.compliance == WithinScope ==> IsOpen(b.status))
    ensures
      var well := d.compliance == WithinScope || (d.compliance == NoMutation && !d.runFailed);
      var to := if well then Completed else Failed;
      var there := if IsOpen(b.status) then to else b.status;
      var seen := Evaluate(a, act).status;
      var revoke := d.compliance != WithinScope && paths.outOfScope != [];
      var end := if !Uses(d, a, paths) then a.status else if seen != Approved then seen
                 else if d.compliance == ScopeExceeded || revoke then Revoked else Consumed;
      var (next, done) := Apply(st, b, a, d, paths, act);
      && next == Moves(st, b, there, a, end).(
           revocations := if Uses(d, a, paths) && end == Revoked && a.status == Approved
                          then st.revocations[a.id := BreachRecord(act)] else st.revocations)
      && done.binding == b.(status := there) && done.approval == a.(status := end)
  {
    hide Good, Spend, LoadApproval, Strip, Later;
    var to := if d.compliance == WithinScope || (d.compliance == NoMutation && !d.runFailed) then Completed else Failed;
    ClosesExactly(st, b, a, to);
    Closes(fs, st, b, to);
    var (st1, closed) := Close(st, b, to);
    MovesNothing(st, b, a);
    if Uses(d, a, paths) {
      var revoke := d.compliance == ScopeExceeded || (d.compliance == Partial && paths.outOfScope != []);
      SpendsExactly(fs, st1, closed, a, revoke, act);
    }
  }

  lemma MovesTwice(st: Store, b: Authority.Binding, mid: ApprovalStatus, to: BindingStatus, a: Approval,
      end: ApprovalStatus)
    ensures Moves(Moves(st, b, b.status, a, mid), b, to, a.(status := mid), end) == Moves(st, b, to, a, end)
  {
    assert st.bindings[b.id := b][b.id := b.(status := to)] == st.bindings[b.id := b.(status := to)];
    assert st.approvals[a.id := a.(status := mid)][a.id := a.(status := end)]
      == st.approvals[a.id := a.(status := end)];
  }

  /** The three readings before the transitions only let a due approval expire. */
  lemma ReadsExactly(fs: Fs, st: Store, req: EnforceRequest)
    requires Good(fs, st) && req.binding in st.bindings && req.binding.approval in st.approvals
    requires Current(st, st.bindings[req.binding], st.approvals[req.binding.approval])
    ensures
      var b, a := st.bindings[req.binding], st.approvals[req.binding.approval];
      var st1 := Checkpoint(st, b, req.head, req.clock.checkpoint).0;
      var st2 := ScopeFor(st1, fs, b, req.isDirectory, req.clock.roots).0;
      LoadApproval(st2, a.id, req.clock.load).0 == Moves(st, b, b.status, a, StatusRead(b, a, req))
    ensures
      var b, a := st.bindings[req.binding], st.approvals[req.binding.approval];
      ReadAt(b, a, req.clock) == a.(status := StatusRead(b, a, req))
  {
    hide Good, LoadApproval, ScopeOf, FrozenScope, Evaluate;
    var b, a := st.bindings[req.binding], st.approvals[req.binding.approval];
    var a1 := if IsOpen(b.status) then Evaluate(a, req.clock.checkpoint) else a;
    var st1 := Checkpoint(st, b, req.head, req.clock.checkpoint).0;
    LoadsExactly(fs, st, b, a, req.clock.checkpoint);
    MovesNothing(st, b, a);
    LoadsExactly(fs, st1, b, a1, req.clock.roots);
    var a2 := Evaluate(a1, req.clock.roots);
    var st2 := ScopeFor(st1, fs, b, req.isDirectory, req.clock.roots).0;
    LoadsExactly(fs, st2, b, a2, req.clock.load);
    EvaluatesStatus(a, req.clock.checkpoint);
    EvaluatesStatus(a1, req.clock.roots);
    EvaluatesStatus(a2, req.clock.load);
    MovesTwice(st, b, a1.status, b.status, a, a2.status);
    MovesTwice(st, b, a2.status, b.status, a, Evaluate(a2, req.clock.load).status);
  }

  lemma EvaluatesStatus(a: Approval, now: int)
    ensures Evaluate(a, now) == a.(status := if LiveAt(a, now) || a.status != Approved then a.status else Expired)
  {
  }

  lemma JudgedIsDecided(b: Authority.Binding, a: Approval, paths: Split2, req: EnforceRequest)
    ensures
      var d := Decide(StopOf(b, a, req.head, req.clock.checkpoint), paths, req.runnerFailed);
      && d.compliance == Judged(b, a, paths, req)
      && (d.runFailed <==> !(Unhindered(b, a, req) && !req.runnerFailed && paths.outOfScope == []))
      && (d.compliance == WithinScope ==> IsOpen(b.status))
  {
  }

  lemma EndsAsSaid(b: Authority.Binding, a: Approval, paths: Split2, req: EnforceRequest)
    ensures
      var d := Decide(StopOf(b, a, req.head, req.clock.checkpoint), paths, req.runnerFailed);
      var read := a.(status := StatusRead(b, a, req));
      var seen := Evaluate(read, req.clock.act).status;
      var revoke := d.compliance != WithinScope && paths.outOfScope != [];
      && ApprovalAfter(b, a, paths, req)
        == (if !Uses(d, read, paths) then read.status else if seen != Approved then seen
            else if d.compliance == ScopeExceeded || revoke then Revoked else Consumed)
      && (ApprovalAfter(b, a, paths, req) == Revoked && read.status == Approved ==> Uses(d, read, paths))
  {
    EvaluatesStatus(a.(status := StatusRead(b, a, req)), req.clock.act);
  }

  /**
   * The whole effect of an enforcement, read off the two records it finds, the request and the classified paths:
   * compliance, both statuses, the receipt on file, the revocation record, and that nothing else changes.
   */
  ghost predicate LeavesBehind(fs: Fs, st: Store, req: EnforceRequest, next: Store, out: Outcome)
    requires req.binding in st.bindings && req.binding.approval in st.approvals && ScopeAt(fs, st, req).Ok?
  {
    var b, a, paths := st.bindings[req.binding], st.approvals[req.binding.approval], PathsAt(fs, st, req);
    var to, end := BindingAfter(b, a, paths, req), ApprovalAfter(b, a, paths, req);
    var id := ReceiptId(b.id, req.evaluatedAt, Judged(b, a, paths, req));
    var receipt := Receipt(id, StoredSplit(paths), to, end);
    var revoked := end == Revoked && a.status == Approved;
    && out.receipt == receipt && out.binding == b.(status := to) && out.approval == a.(status := end)
    && next == Store(st.proposals, st.approvals[a.id := a.(status := end)], st.bindings[b.id := b.(status := to)],
         st.receipts[id := receipt],
         if revoked then st.revocations[a.id := BreachRecord(req.clock.act)] else st.revocations)
    && (!out.recovered ==>
          (out.runFailed <==> !(Unhindered(b, a, req) && !req.runnerFailed && paths.outOfScope == [])))
    && (out.recovered ==> out.runFailed)
  }

  lemma EnforcementVerdict(fs: Fs, st: Store, req: EnforceRequest)
    requires WellBehaved(fs) && Reachable(fs, st) && req.binding in st.bindings
    ensures req.binding.approval in st.approvals && (Enforce(st, fs, req).1.Ok? <==> ScopeAt(fs, st, req).Ok?)
    ensures Enforce(st, fs, req).1.Ok? ==>
      LeavesBehind(fs, st, req, Enforce(st, fs, req).0, Enforce(st, fs, req).1.value)
  {
    hide Good, Reachable, LoadApproval, Checkpoint, ScopeFor, ScopeOf, Apply, Classify, Decide, Uses, Judged,
      BindingAfter, ApprovalAfter, StatusRead, StopOf, ReadAt, Evaluate, StoredSplit, Moves, Unhindered, FrozenBinding,
      EnforcedAs;
    ReachableIsGood(fs, st);
    Enforces(fs, st, req);
    if ScopeAt(fs, st, req).Ok? {
      VerdictFromReadings(fs, st, req);
    }
  }

  lemma VerdictFromReadings(fs: Fs, st: Store, req: EnforceRequest)
    requires WellBehaved(fs) && Good(fs, st) && req.binding in st.bindings && req.binding.approval in st.approvals
    requires ScopeAt(fs, st, req).Ok? && Enforce(st, fs, req).1.Ok?
    ensures LeavesBehind(fs, st, req, Enforce(st, fs, req).0, Enforce(st, fs, req).1.value)
  {
    hide Good, LoadApproval, Checkpoint, ScopeFor, ScopeOf, Apply, Classify, Decide, Uses, Judged, BindingAfter,
      ApprovalAfter, StatusRead, StopOf, ReadAt, Evaluate, StoredSplit, Moves, Unhindered, FrozenBinding;
    BindingHasApproval(fs, st, req.binding);
    ReadsAuthority(fs, st, req);
    ReadsExactly(fs, st, req);
    var b, a := st.bindings[req.binding], st.approvals[req.binding.approval];
    var (st1, stop) := Checkpoint(st, b, req.head, req.clock.checkpoint);
    var st2 := ScopeFor(st1, fs, b, req.isDirectory, req.clock.roots).0;
    var (st3, loaded) := LoadApproval(st2, a.id, req.clock.load);
    var paths := PathsAt(fs, st, req);
    var d := Decide(stop, paths, req.runnerFailed);
    var read := a.(status := StatusRead(b, a, req));
    JudgedIsDecided(b, a, paths, req);
    EndsAsSaid(b, a, paths, req);
    AppliesExactly(fs, st3, b, read, d, paths, req.clock.act);
    ClosedAsSaid(b, a, paths, req);
    MovesTwice(st, b, read.status, BindingAfter(b, a, paths, req), a, ApprovalAfter(b, a, paths, req));
    MovesIs(st, b, BindingAfter(b, a, paths, req), a, ApprovalAfter(b, a, paths, req));
    MovesIs(st, b, b.status, a, read.status);
    ReadNotRevoked(b, a, req);
  }

  lemma MovesIs(st: Store, b: Authority.Binding, to: BindingStatus, a: Approval, end: ApprovalStatus)
    ensures Moves(st, b, to, a, end)
      == st.(bindings := st.bindings[b.id := b.(status := to)], approvals := st.approvals[a.id := a.(status := end)])
  {
  }

  lemma ClosedAsSaid(b: Authority.Binding, a: Approval, paths: Split2, req: EnforceRequest)
    ensures
      var d := Decide(StopOf(b, a, req.head, req.clock.checkpoint), paths, req.runnerFailed);
      var well := d.compliance == WithinScope || (d.compliance == NoMutation && !d.runFailed);
      var to := if well then Completed else Failed;
      BindingAfter(b, a, paths, req) == if IsOpen(b.status) then to else b.status
  {
  }

  lemma ReadNotRevoked(b: Authority.Binding, a: Approval, req: EnforceRequest)
    ensures StatusRead(b, a, req) == Revoked ==> a.status == Revoked
    ensures StatusRead(b, a, req) == Approved ==> a.status == Approved
    ensures forall paths :: a.status == Approved && ApprovalAfter(b, a, paths, req) == Revoked ==>
      StatusRead(b, a, req) == Approved
  {
  }

  /** The approval is live at every reading of the call. */
  predicate LiveThroughout(a: Approval, req: EnforceRequest) {
    && LiveAt(a, req.clock.checkpoint) && LiveAt(a, req.clock.roots)
    && LiveAt(a, req.clock.load) && LiveAt(a, req.clock.act)
  }

  /** The five ends of a run under live authority and an open binding. */
  lemma EndsUnderLiveAuthority(fs: Fs, st: Store, req: EnforceRequest)
    requires WellBehaved(fs) && Reachable(fs, st) && req.binding in st.bindings && req.binding.approval in st.approvals
    requires ScopeAt(fs, st, req).Ok? && IsOpen(st.bindings[req.binding].status)
    requires LiveThroughout(st.approvals[req.binding.approval], req)
    ensures
      var next, paths := Enforce(st, fs, req).0, PathsAt(fs, st, req);
      && Enforce(st, fs, req).1.Ok? && req.binding in next.bindings && req.binding.approval in next.approvals
      && var compliance := Enforce(st, fs, req).1.value.receipt.id.compliance;
         var bound, authority := next.bindings[req.binding].status, next.approvals[req.binding.approval].status;
         if req.head != Some(st.bindings[req.binding].baseSha) then
           compliance == BaseShaMismatch && bound == Failed && authority == Approved
         else if paths.outOfScope != [] then
           && compliance == ScopeExceeded && bound == Failed && authority == Revoked
           && req.binding.approval in next.revocations
         else if req.runnerFailed then
           if paths.inScope == [] then compliance == NoMutation && bound == Failed && authority == Approved
           else compliance == Partial && bound == Failed && authority == Consumed
         else if paths.inScope == [] then compliance == NoMutation && bound == Completed && authority == Approved
         else compliance == WithinScope && bound == Completed && authority == Consumed
  {
    hide Good, Reachable, Enforce, ScopeOf, Classify, StoredSplit;
    EnforcementVerdict(fs, st, req);
    ReachableIsGood(fs, st);
    BindingHasApproval(fs, st, req.binding) by { hide Good; }
  }

  /** A run that ended well and changed nothing. */
  ghost predicate CleanRun(fs: Fs, st: Store, req: EnforceRequest) {
    && req.binding in st.bindings && req.binding.approval in st.approvals && ScopeAt(fs, st, req).Ok?
    && Unhindered(st.bindings[req.binding], st.approvals[req.binding.approval], req) && !req.runnerFailed
    && PathsAt(fs, st, req) == Split2([], [])
  }

  lemma CleanRunCompletes(fs: Fs, st: Store, req: EnforceRequest)
    requires WellBehaved(fs) && Reachable(fs, st) && CleanRun(fs, st, req)
    ensures
      var next := Enforce(st, fs, req).0;
      var a := st.approvals[req.binding.approval];
      && req.binding in next.bindings && next.bindings[req.binding].status == Completed
      && next.approvals
        == st.approvals[req.binding.approval := a.(status := StatusRead(st.bindings[req.binding], a, req))]
  {
    hide Good, Reachable, Enforce, ScopeOf, Classify, StoredSplit, StatusRead, ScopeAt, FrozenBinding;
    EnforcementVerdict(fs, st, req);
    ReachableIsGood(fs, st);
    BindingHasApproval(fs, st, req.binding);
  }

  /**
   * A run that ended well and changed nothing completes its binding and leaves the approval as it was read, so that
   * no bind of that approval succeeds after whatever else happens.
   */
  lemma CleanRunBlocksForever(fs: Fs, st: Store, req: EnforceRequest, ops: seq<Op>, bind: BindRequest, now: int)
    requires WellBehaved(fs) && Reachable(fs, st) && CleanRun(fs, st, req) && bind.approval == req.binding.approval
    ensures
      var next := Enforce(st, fs, req).0;
      && req.binding in next.bindings && next.bindings[req.binding].status == Completed
      && CreateBinding(RunFrom(fs, next, ops), fs, bind, now).1.Err?
  {
    hide Reachable, Enforce, CreateBinding, RunFrom, StatusRead, CleanRun;
    CleanRunCompletes(fs, st, req);
    ReachesNext(fs, st, Enforcing(req));
    CompletedBindingBlocksForever(fs, Enforce(st, fs, req).0, req.binding, ops, bind, now);
  }

  lemma ReachesNext(fs: Fs, st: Store, op: Op)
    requires Reachable(fs, st)
    ensures Reachable(fs, Step(fs, st, op))
  {
    hide Step;
    var ops :| st == RunFrom(fs, EMPTY, ops);
    RunSnoc(fs, EMPTY, ops, op);
  }

  lemma {:induction false} RunSnoc(fs: Fs, st: Store, ops: seq<Op>, op: Op)
    ensures RunFrom(fs, st, ops + [op]) == Step(fs, RunFrom(fs, st, ops), op)
    decreases |ops|
  {
    hide Step;
    if ops == [] {
      assert [op][1..] == [] && [] + [op] == [op];
      assert RunFrom(fs, Step(fs, st, op), []) == Step(fs, st, op);
    } else {
      assert (ops + [op])[0] == ops[0] && (ops + [op])[1..] == ops[1..] + [op];
      RunSnoc(fs, Step(fs, st, ops[0]), ops[1..], op);
    }
  }

  // ---- Binding ---------------------------------------------------------------------------------

  /** The root names something inside the workspace; in a frozen body it is already relative and without `..`. */
  predicate LiesInside(fs: Fs, root: string, workspace: Path) {
    && root != "" && root[0] != '~' && fs.resolve(workspace + Segments(root)).Some?
    && Under(fs.resolve(workspace + Segments(root)).value, workspace)
  }

  predicate AllInside(fs: Fs, roots: seq<string>, workspace: Path) {
    forall i :: 0 <= i < |roots| ==> LiesInside(fs, roots[i], workspace)
  }

  /** A request that binds, field by field. */
  ghost predicate Bindable(fs: Fs, st: Store, req: BindRequest, now: int) {
    && Strip(req.runId) != "" && req.approval in st.approvals && LiveAt(st.approvals[req.approval], now)
    && (forall id :: id in st.bindings && id.approval == req.approval ==>
          st.bindings[id].status in {Failed, Withdrawn})
    && var body := st.approvals[req.approval].body;
    && (forall id :: id in st.bindings && id.targetId == body.targetId ==>
          st.bindings[id].status !in {Active, Suspended})
    && (req.executionTarget.Some? ==> Strip(req.executionTarget.value) == body.targetId)
    && req.workspace.Some? && req.isDirectory && req.head == Some(body.baseSha) && req.boundedWrite
    && fs.resolve(req.workspace.value).Some?
    && var workspace := fs.resolve(req.workspace.value).value;
       AllInside(fs, body.allowedRoots, workspace) && AllInside(fs, body.deniedRoots, workspace)
  }

  lemma RootLiesInsideIff(fs: Fs, root: string, workspace: Path)
    requires NormalizePath(root) == Some(root)
    ensures ResolveRoot(fs, root, workspace).Ok? <==> LiesInside(fs, root, workspace)
  {
    hide Segments, Strip, DropSlashes;
    NormalizeTrimmed(root);
    NormalSegments(root);
    NormalRelative(root);
    assert forall i :: 0 <= i < |Segments(root)| ==> Segments(root)[i] != "..";
  }

  lemma NormalRelative(root: string)
    requires NormalizePath(root) == Some(root)
    ensures root != "" && root[0] != '/'
  {
    NormalizeTrimmed(root) by { hide NormalizePath; }
  }

  lemma {:induction false} RootsLieInsideIff(fs: Fs, roots: seq<string>, workspace: Path)
    requires AllNormal(roots)
    ensures ResolveRoots(fs, roots, workspace).Ok? <==> AllInside(fs, roots, workspace)
    decreases |roots|
  {
    hide ResolveRoot, LiesInside, NormalizePath;
    if roots != [] {
      var n := |roots| - 1;
      RootsLieInsideIff(fs, roots[..n], workspace);
      RootLiesInsideIff(fs, roots[n], workspace);
      assert forall i :: 0 <= i < n ==> roots[..n][i] == roots[i];
    }
  }

  /** A bind succeeds exactly for such a request; the binding carries its id and the revision it was checked against. */
  lemma BindsIff(fs: Fs, st: Store, req: BindRequest, now: int)
    requires WellBehaved(fs) && Reachable(fs, st)
    ensures CreateBinding(st, fs, req, now).1.Ok? <==> Bindable(fs, st, req, now)
    ensures CreateBinding(st, fs, req, now).1.Ok? ==>
      var (next, r) := CreateBinding(st, fs, req, now);
      && req.approval in st.approvals
      && r.value.id == BindingId(req.approval, Strip(req.runId), req.boundAt, st.approvals[req.approval].body.targetId)
      && r.value.id in next.bindings && next.bindings[r.value.id] == r.value && req.head == Some(r.value.baseSha)
      && (r.value.status == Active <==> r.value.id !in st.bindings)
  {
    hide Good, Reachable, CheckApproval, CheckRequest, CommitBinding, Strip, AllInside, FrozenBinding, ValidateBody;
    ReachableIsGood(fs, st);
    ChecksLive(fs, st, req.approval, now);
    if req.approval in st.approvals && LiveAt(st.approvals[req.approval], now) {
      StoredId(fs, st, req.approval);
      var a := st.approvals[req.approval];
      RequestIff(fs, a, req);
      if CheckRequest(fs, a, req).Ok? {
        CommitsIff(fs, st, a, req, CheckRequest(fs, a, req).value);
      }
    }
  }

  lemma ChecksLive(fs: Fs, st: Store, id: ApprovalId, now: int)
    requires Good(fs, st)
    ensures
      if id in st.approvals && LiveAt(st.approvals[id], now)
      then CheckApproval(st, id, now) == (st, Ok(st.approvals[id])) else CheckApproval(st, id, now).1.Err?
  {
    hide Good, LoadApproval, Later;
    LoadKeeps(fs, st, id, now);
    if id in st.approvals {
      Loads(fs, st, id, now);
      EvaluatesStatus(st.approvals[id], now);
      assert st.approvals[id := st.approvals[id]] == st.approvals;
    }
  }

  lemma RequestIff(fs: Fs, a: Approval, req: BindRequest)
    ensures CheckRequest(fs, a, req).Ok? <==>
      && (req.executionTarget.Some? ==> Strip(req.executionTarget.value) == a.body.targetId)
      && req.workspace.Some? && req.head == Some(a.body.baseSha) && req.boundedWrite
      && fs.resolve(req.workspace.value).Some?
    ensures CheckRequest(fs, a, req).Ok? ==>
      req.workspace.Some? && fs.resolve(req.workspace.value) == Some(CheckRequest(fs, a, req).value)
  {
    hide Strip;
  }

  lemma CommitsIff(fs: Fs, st: Store, a: Approval, req: BindRequest, workspace: Path)
    requires WellBehaved(fs) && Good(fs, st) && a.id in st.approvals && st.approvals[a.id] == a
    requires FrozenApproval(a.id, a) && fs.resolve(workspace) == Some(workspace)
    ensures CommitBinding(st, fs, a, req, workspace).1.Ok? <==>
      && req.isDirectory
      && AllInside(fs, a.body.allowedRoots, workspace) && AllInside(fs, a.body.deniedRoots, workspace)
      && (forall id :: id in st.bindings && id.approval == a.id ==> st.bindings[id].status in {Failed, Withdrawn})
      && (forall id :: id in st.bindings && id.targetId == a.body.targetId ==>
            st.bindings[id].status !in {Active, Suspended})
    ensures CommitBinding(st, fs, a, req, workspace).1.Ok? ==>
      var (next, r) := CommitBinding(st, fs, a, req, workspace);
      var id := BindingId(a.id, Strip(req.runId), req.boundAt, a.body.targetId);
      && r.value.id == id && id in next.bindings && next.bindings[id] == r.value && r.value.baseSha == a.body.baseSha
      && (r.value.status == Active <==> id !in st.bindings)
  {
    hide Good, ResolveRoots, Strip, AllInside, Stored, ValidateBody, FrozenBinding;
    FrozenRoots(a);
    RootsLieInsideIff(fs, a.body.allowedRoots, workspace);
    RootsLieInsideIff(fs, a.body.deniedRoots, workspace);
    if CommitBinding(st, fs, a, req, workspace).1.Ok? {
      BindingMintedIffFreshId(fs, st, a, req, workspace);
      var id := BindingId(a.id, Strip(req.runId), req.boundAt, a.body.targetId);
      if id in st.bindings {
        BindingHasApproval(fs, st, id);
        SameRevision(fs, st.bindings[id], a.body);
      }
    }
  }

  lemma SameRevision(fs: Fs, b: Authority.Binding, body: Body)
    requires FrozenBinding(fs, b, body)
    ensures b.baseSha == body.baseSha
  {
    hide Ground;
  }

  lemma FrozenRoots(a: Approval)
    requires FrozenApproval(a.id, a)
    ensures AllNormal(a.body.allowedRoots) && AllNormal(a.body.deniedRoots) && a.body.allowedRoots != []
  {
    hide NormalizeBody, UnderDocs, NormalizePath;
    NormalizeBodyIdempotent(a.body.AsRaw());
  }

  /** Where a root resolves to, and what each refusal of one says. */
  lemma RootAnswers(fs: Fs, root: string, workspace: Path)
    ensures
      var text := Strip(root);
      match ResolveRoot(fs, root, workspace)
      case Ok(p) =>
        && text != "" && text[0] != '/' && text[0] != '~' && ".." !in Segments(text)
        && fs.resolve(workspace + Segments(text)) == Some(p) && workspace <= p
      case Err(BlankRoot) => text == ""
      case Err(NotRelative) => text != "" && (text[0] == '/' || text[0] == '~')
      case Err(RootTraversal) => ".." in Segments(text)
      case Err(Unresolvable) => fs.resolve(workspace + Segments(text)).None?
      case Err(RootEscapes) =>
        && fs.resolve(workspace + Segments(text)).Some?
        && !(workspace <= fs.resolve(workspace + Segments(text)).value)
      case Err(_) => false
  {
    hide Strip, Segments;
  }

  /** One of the roots fails in this way, which only a root can. */
  ghost predicate RootFaultOf(fs: Fs, body: Body, workspace: Path, fault: Fault) {
    && fault in {BlankRoot, NotRelative, RootTraversal, Unresolvable, RootEscapes}
    && exists root :: root in body.allowedRoots + body.deniedRoots && Fails(fs, root, workspace, fault)
  }

  predicate Fails(fs: Fs, root: string, workspace: Path, fault: Fault) {
    ResolveRoot(fs, root, workspace) == Err(fault)
  }

  lemma {:induction false} RootsFail(fs: Fs, roots: seq<string>, workspace: Path)
    requires ResolveRoots(fs, roots, workspace).Err?
    ensures exists root :: root in roots && Fails(fs, root, workspace, ResolveRoots(fs, roots, workspace).error)
    decreases |roots|
  {
    hide ResolveRoot;
    var n := |roots| - 1;
    if ResolveRoots(fs, roots[..n], workspace).Err? {
      RootsFail(fs, roots[..n], workspace);
      var root :| root in roots[..n] && Fails(fs, root, workspace, ResolveRoots(fs, roots[..n], workspace).error);
      assert root in roots;
    } else {
      assert roots[n] in roots && Fails(fs, roots[n], workspace, ResolveRoots(fs, roots, workspace).error);
    }
  }

  /** What a fault says of a bind under the approval `a`. */
  ghost predicate BindFaultOf(fault: Fault, fs: Fs, st: Store, a: Approval, req: BindRequest, now: int) {
    match fault
    case ApprovalExpired => a.status == Expired || (a.status == Approved && a.id.expiresAt <= now)
    case ApprovalRevoked => a.status == Revoked
    case ApprovalConsumed => a.status == Consumed
    case TargetMismatch => req.executionTarget.Some? && Strip(req.executionTarget.value) != a.body.targetId
    case NoWorkspace => req.workspace.None? || fs.resolve(req.workspace.value).None?
    case HeadUnreadable => req.head.None?
    case ShaMismatch => req.head.Some? && req.head.value != a.body.baseSha
    case NoWriteCapability => !req.boundedWrite
    case AlreadyBound => exists id :: id in st.bindings && id.approval == a.id
                           && st.bindings[id].status in {Active, Suspended, Completed}
    case TargetBusy => exists id :: id in st.bindings && id.targetId == a.body.targetId
                         && st.bindings[id].status in {Active, Suspended}
    case NotDirectory => !req.isDirectory
    case _ =>
      && req.workspace.Some? && fs.resolve(req.workspace.value).Some?
      && RootFaultOf(fs, a.body, fs.resolve(req.workspace.value).value, fault)
  }

  /** A refused bind says something that is so. */
  lemma BindFaultMeans(fs: Fs, st: Store, req: BindRequest, now: int)
    requires WellBehaved(fs) && Reachable(fs, st) && CreateBinding(st, fs, req, now).1.Err?
    ensures
      var fault := CreateBinding(st, fs, req, now).1.error;
      if fault == MissingRun then Strip(req.runId) == ""
      else if req.approval !in st.approvals then fault == NotFound
      else BindFaultOf(fault, fs, st, st.approvals[req.approval], req, now)
  {
    hide Good, Reachable, LoadApproval, CommitBinding, Strip, ValidateBody, BindFaultOf, RootFaultOf, CheckRequest;
    ReachableIsGood(fs, st);
    if req.approval in st.approvals {
      Loads(fs, st, req.approval, now);
      StoredId(fs, st, req.approval);
      var a := st.approvals[req.approval];
      EvaluatesStatus(a, now);
      assert st.approvals[req.approval := a] == st.approvals;
      var (st1, checked) := CheckApproval(st, req.approval, now);
      if checked.Err? {
        StatusFault(fs, st, a, req, now);
      } else {
        assert st1 == st && checked.value == a;
        RequestFault(fs, st, a, req, now);
        if CheckRequest(fs, a, req).Ok? {
          CommitFault(fs, st, a, req, CheckRequest(fs, a, req).value, now);
        }
      }
    } else {
      LoadKeeps(fs, st, req.approval, now);
    }
  }

  lemma StatusFault(fs: Fs, st: Store, a: Approval, req: BindRequest, now: int)
    ensures a.status == Revoked ==> BindFaultOf(ApprovalRevoked, fs, st, a, req, now)
    ensures a.status == Consumed ==> BindFaultOf(ApprovalConsumed, fs, st, a, req, now)
    ensures a.status == Expired || (a.status == Approved && a.id.expiresAt <= now) ==>
      BindFaultOf(ApprovalExpired, fs, st, a, req, now)
  {
  }

  lemma RequestFault(fs: Fs, st: Store, a: Approval, req: BindRequest, now: int)
    ensures
      var r := CheckRequest(fs, a, req);
      r.Err? ==> r.error != MissingRun && BindFaultOf(r.error, fs, st, a, req, now)
  {
    hide RootFaultOf, Strip;
  }

  lemma CommitFault(fs: Fs, st: Store, a: Approval, req: BindRequest, workspace: Path, now: int)
    requires FrozenApproval(a.id, a) && CheckRequest(fs, a, req) == Ok(workspace)
    ensures
      var r := CommitBinding(st, fs, a, req, workspace).1;
      r.Err? ==> r.error != MissingRun && BindFaultOf(r.error, fs, st, a, req, now)
  {
    hide ResolveRoots, RootFaultOf, Strip, Stored, FrozenApproval, BindFaultOf, CheckRequest, Blocking, Busy;
    FrozenRoots(a);
    RootFaultsOf(fs, a.body, workspace);
    BusyFaults(fs, st, a, req, now);
    WorkspaceOf(fs, a, req, workspace);
    forall fault | RootFaultOf(fs, a.body, workspace, fault)
      ensures fault != MissingRun && BindFaultOf(fault, fs, st, a, req, now)
    {
      RootFaultIsOne(fs, st, a, req, workspace, fault, now);
    }
  }

  lemma WorkspaceOf(fs: Fs, a: Approval, req: BindRequest, workspace: Path)
    requires CheckRequest(fs, a, req) == Ok(workspace)
    ensures req.workspace.Some? && fs.resolve(req.workspace.value) == Some(workspace)
  {
  }

  lemma BusyFaults(fs: Fs, st: Store, a: Approval, req: BindRequest, now: int)
    ensures Blocking(st, a.id) ==> BindFaultOf(AlreadyBound, fs, st, a, req, now)
    ensures Busy(st, a.body.targetId) ==> BindFaultOf(TargetBusy, fs, st, a, req, now)
    ensures !req.isDirectory ==> BindFaultOf(NotDirectory, fs, st, a, req, now)
  {
  }

  lemma RootFaultIsOne(fs: Fs, st: Store, a: Approval, req: BindRequest, workspace: Path, fault: Fault, now: int)
    requires RootFaultOf(fs, a.body, workspace, fault)
    requires req.workspace.Some? && fs.resolve(req.workspace.value) == Some(workspace)
    ensures fault != MissingRun && BindFaultOf(fault, fs, st, a, req, now)
  {
    hide Fails;
  }

  lemma RootFaultsOf(fs: Fs, body: Body, workspace: Path)
    ensures
      var r := ResolveRoots(fs, body.allowedRoots, workspace);
      r.Err? ==> RootFaultOf(fs, body, workspace, r.error)
    ensures
      var r := ResolveRoots(fs, body.deniedRoots, workspace);
      r.Err? ==> RootFaultOf(fs, body, workspace, r.error)
  {
    hide ResolveRoots, Fails;
    forall roots | (roots == body.allowedRoots || roots == body.deniedRoots) && ResolveRoots(fs, roots, workspace).Err?
      ensures RootFaultOf(fs, body, workspace, ResolveRoots(fs, roots, workspace).error)
    {
      RootsFail(fs, roots, workspace);
      var root :| root in roots && Fails(fs, root, workspace, ResolveRoots(fs, roots, workspace).error);
      assert root in body.allowedRoots + body.deniedRoots;
      RootFaults(fs, root, workspace, ResolveRoots(fs, roots, workspace).error);
    }
  }

  lemma RootFaults(fs: Fs, root: string, workspace: Path, fault: Fault)
    requires Fails(fs, root, workspace, fault)
    ensures fault in {BlankRoot, NotRelative, RootTraversal, Unresolvable, RootEscapes}
  {
  }

  // ---- Proposing, approving, revoking, moving --------------------------------------------------

  /** A proposal is saved exactly when its candidate freezes and the run has a name. */
  lemma ProposesIff(fs: Fs, st: Store, runId: string, raw: RawBody)
    requires WellBehaved(fs) && Reachable(fs, st)
    ensures Propose(st, runId, raw).1.Ok? <==> Strip(runId) != "" && exists b :: FreezesTo(raw, b)
    ensures forall b :: FreezesTo(raw, b) && Strip(runId) != "" ==>
      var id := ProposalId(Strip(runId), HashOf(b));
      && Propose(st, runId, raw).1 == Ok(id) && id in Propose(st, runId, raw).0.proposals
      && (id !in st.proposals ==> Propose(st, runId, raw).0.proposals[id] == b)
  {
    hide Good, Reachable, NormalizeBody, FreezesTo, Strip, HashOf;
    ReachableIsGood(fs, st);
    forall b ensures NormalizeBody(raw) == Some(b) <==> FreezesTo(raw, b) {
      FreezesIff(raw, b);
    }
    if NormalizeBody(raw).Some? {
      NormalizeBodyIdempotent(raw);
      var b := NormalizeBody(raw).value;
      var id := ProposalId(Strip(runId), HashOf(b));
      assert FreezesTo(raw, b);
      if id in st.proposals {
        StoredProposalLoads(fs, st, id);
      }
    }
  }

  /** No worker and no text speaks for an operator. */
  predicate Worker(who: string) {
    || who in {"worker", "agent", "hermes", "claude", "backend", "runner", "self", "model"}
    || who in {"prose", "transcript", "memory"} || "worker:" <= who
  }

  /** An approval is granted exactly to an operator, for a stored proposal whose docs promise holds, for a time left. */
  lemma ApprovesIff(fs: Fs, st: Store, id: ProposalId, seconds: nat, who: string, approvedAt: int, now: int)
    requires WellBehaved(fs) && Reachable(fs, st)
    ensures Approve(st, id, seconds, who, approvedAt, now).1.Ok? <==>
      && Strip(who) != "" && !Worker(Lower(Strip(who))) && id in st.proposals
      && (st.proposals[id].docsOnly ==>
            forall i :: 0 <= i < |st.proposals[id].allowedRoots| ==> UnderDocs(st.proposals[id].allowedRoots[i]))
      && seconds > 0 && now < approvedAt + seconds
    ensures Approve(st, id, seconds, who, approvedAt, now).1.Ok? ==>
      var (next, r) := Approve(st, id, seconds, who, approvedAt, now);
      && r.value.id == ApprovalId(id, approvedAt, Strip(who), approvedAt + seconds, HashOf(r.value.body))
      && id in st.proposals && HashOf(r.value.body) == HashOf(st.proposals[id])
      && r.value.id in next.approvals && next.approvals[r.value.id] == r.value
      && (r.value.id !in st.approvals ==> r.value.status == Approved && r.value.body == st.proposals[id])
  {
    hide Good, Reachable, NormalizeBody, Strip, UnderDocs, HashOf, Lower;
    ReachableIsGood(fs, st);
    OperatorIff(who);
    if id in st.proposals {
      StoredProposalLoads(fs, st, id);
      FrozenBodyAgain(fs, st, id);
      var aid := ApprovalId(id, approvedAt, Strip(who), approvedAt + seconds, HashOf(st.proposals[id]));
      if aid in st.approvals {
        StoredId(fs, st, aid);
        VerifiesUnchanged(st.approvals[aid]);
      }
    }
  }

  /** What a refused approval says. */
  lemma ApproveFaultMeans(fs: Fs, st: Store, id: ProposalId, seconds: nat, who: string, approvedAt: int, now: int)
    requires WellBehaved(fs) && Reachable(fs, st) && Approve(st, id, seconds, who, approvedAt, now).1.Err?
    ensures
      match Approve(st, id, seconds, who, approvedAt, now).1.error
      case NotOperator => Strip(who) == "" || Worker(Lower(Strip(who)))
      case NotFound => id !in st.proposals
      case InvalidBody =>
        && id in st.proposals && st.proposals[id].docsOnly
        && exists i :: 0 <= i < |st.proposals[id].allowedRoots| && !UnderDocs(st.proposals[id].allowedRoots[i])
      case NotPositive => seconds == 0
      case AlreadyExpired => approvedAt + seconds <= now
      case _ => false
  {
    hide Good, Reachable, NormalizeBody, Strip, UnderDocs, HashOf, Lower;
    ReachableIsGood(fs, st);
    OperatorIff(who);
    if id in st.proposals {
      StoredProposalLoads(fs, st, id);
      FrozenBodyAgain(fs, st, id);
      var aid := ApprovalId(id, approvedAt, Strip(who), approvedAt + seconds, HashOf(st.proposals[id]));
      if aid in st.approvals {
        StoredId(fs, st, aid);
        VerifiesUnchanged(st.approvals[aid]);
      }
    }
  }

  lemma FrozenBodyAgain(fs: Fs, st: Store, id: ProposalId)
    requires Good(fs, st) && id in st.proposals
    ensures NormalizeBody(st.proposals[id].AsRaw()) == Some(st.proposals[id])
  {
    hide NormalizeBody, ValidateBody, ApprovalsFrozen, BindingsFrozen, ReceiptsHonest;
    assert FrozenProposal(id, st.proposals[id]);
  }

  lemma OperatorIff(who: string)
    ensures IsOperator(who) <==> Strip(who) != "" && !Worker(Lower(Strip(who)))
  {
    hide Strip;
    assert Lower(Strip(who)) == "" <==> Strip(who) == "";
  }

  /** A revocation succeeds exactly for an operator with a reason, on an approval that is live or already revoked. */
  lemma RevokesIff(fs: Fs, st: Store, id: ApprovalId, reason: string, who: string, revokedAt: int, now: int)
    requires WellBehaved(fs) && Reachable(fs, st)
    ensures Revoke(st, id, reason, who, revokedAt, now).1.Ok? <==>
      && Strip(who) != "" && !Worker(Lower(Strip(who))) && Strip(reason) != "" && id in st.approvals
      && (LiveAt(st.approvals[id], now) || st.approvals[id].status == Revoked)
    ensures Revoke(st, id, reason, who, revokedAt, now).1.Ok? ==>
      var next := Revoke(st, id, reason, who, revokedAt, now).0;
      && id in next.approvals && next.approvals[id] == st.approvals[id].(status := Revoked) && id in next.revocations
      && (LiveAt(st.approvals[id], now) ==>
            next.revocations == st.revocations[id := RevocationRecord(Strip(who), revokedAt, Strip(reason))])
  {
    hide Good, Reachable, Strip, LoadApproval, Lower, IsOperator, Worker;
    ReachableIsGood(fs, st);
    OperatorIff(who);
    Revokes(fs, st, id, reason, who, revokedAt, now);
    if id in st.approvals {
      EvaluatesStatus(st.approvals[id], now);
      RevokedHasRecord(fs, st, id);
    } else {
      LoadKeeps(fs, st, id, now);
    }
  }

  /** What a refused revocation says. */
  lemma RevokeFaultMeans(fs: Fs, st: Store, id: ApprovalId, reason: string, who: string, revokedAt: int, now: int)
    requires WellBehaved(fs) && Reachable(fs, st) && Revoke(st, id, reason, who, revokedAt, now).1.Err?
    ensures
      match Revoke(st, id, reason, who, revokedAt, now).1.error
      case NotOperator => Strip(who) == "" || Worker(Lower(Strip(who)))
      case MissingReason => Strip(reason) == ""
      case NotFound => id !in st.approvals
      case Terminal =>
        && id in st.approvals
        && (st.approvals[id].status in {Consumed, Expired}
            || (st.approvals[id].status == Approved && st.approvals[id].id.expiresAt <= now))
      case _ => false
  {
    hide Good, Reachable, Strip, LoadApproval, Lower, IsOperator, Worker;
    ReachableIsGood(fs, st);
    OperatorIff(who);
    if id in st.approvals {
      Loads(fs, st, id, now);
      EvaluatesStatus(st.approvals[id], now);
      RevokedHasRecord(fs, st, id);
    } else {
      LoadKeeps(fs, st, id, now);
    }
  }

  /** A binding moves exactly from active to anything else, and from suspended to an end; nothing else changes. */
  lemma TransitionsIff(st: Store, id: BindingId, to: BindingStatus)
    ensures TransitionBinding(st, id, to).1.Ok? <==>
      id in st.bindings && to != Active &&
      (st.bindings[id].status == Active || (st.bindings[id].status == Suspended && to != Suspended))
    ensures TransitionBinding(st, id, to).0 ==
      if TransitionBinding(st, id, to).1.Ok?
      then st.(bindings := st.bindings[id := st.bindings[id].(status := to)]) else st
  {
  }

  /** A load answers the record as it is evaluated, and files nothing but an expiry. */
  lemma LoadAnswers(fs: Fs, st: Store, id: ApprovalId, now: int)
    requires WellBehaved(fs) && Reachable(fs, st)
    ensures LoadApproval(st, id, now).1.Ok? <==> id in st.approvals
    ensures id in st.approvals ==>
      var a := st.approvals[id];
      var seen := a.(status := if a.status == Approved && a.id.expiresAt <= now then Expired else a.status);
      LoadApproval(st, id, now) == (st.(approvals := st.approvals[id := seen]), Ok(seen))
  {
    hide Good, Reachable, LoadApproval;
    ReachableIsGood(fs, st);
    LoadKeeps(fs, st, id, now);
    if id in st.approvals {
      Loads(fs, st, id, now);
      EvaluatesStatus(st.approvals[id], now);
    }
  }

  // ---- The scope that is enforced --------------------------------------------------------------

  /** The first root that does not lie inside cannot be resolved at all, which nobody catches. */
  ghost predicate Uncaught(fs: Fs, roots: seq<string>, workspace: Path) {
    exists i :: 0 <= i < |roots| && AllInside(fs, roots[..i], workspace) && Unresolved(fs, roots[i], workspace)
  }

  predicate Unresolved(fs: Fs, root: string, workspace: Path) {
    root != "" && root[0] != '~' && fs.resolve(workspace + Segments(root)).None?
  }

  lemma RootUncaughtIff(fs: Fs, root: string, workspace: Path)
    requires NormalizePath(root) == Some(root)
    ensures ResolveRoot(fs, root, workspace) == Err(Unresolvable) <==> Unresolved(fs, root, workspace)
  {
    hide Segments, Strip, DropSlashes;
    NormalizeTrimmed(root);
    NormalSegments(root);
    NormalRelative(root);
    assert forall i :: 0 <= i < |Segments(root)| ==> Segments(root)[i] != "..";
  }

  lemma {:induction false} RootsUncaughtIff(fs: Fs, roots: seq<string>, workspace: Path)
    requires AllNormal(roots)
    ensures ResolveRoots(fs, roots, workspace) == Err(Unresolvable) <==> Uncaught(fs, roots, workspace)
    decreases |roots|
  {
    hide ResolveRoot, LiesInside, NormalizePath, Unresolved, AllInside;
    if roots != [] {
      var n := |roots| - 1;
      var front := roots[..n];
      assert AllNormal(front) by { assert forall i :: 0 <= i < n ==> front[i] == roots[i]; }
      RootsUncaughtIff(fs, front, workspace);
      RootUncaughtIff(fs, roots[n], workspace);
      RootsLieInsideIff(fs, front, workspace);
      if Uncaught(fs, front, workspace) {
        var i :| 0 <= i < |front| && AllInside(fs, front[..i], workspace) && Unresolved(fs, front[i], workspace);
        assert roots[..i] == front[..i] && roots[i] == front[i];
      }
      if i :| 0 <= i < |roots| && AllInside(fs, roots[..i], workspace) && Unresolved(fs, roots[i], workspace) {
        if i < n {
          assert roots[..i] == front[..i] && roots[i] == front[i];
          InsideNotUnresolved(fs, front, i, workspace);
        }
      }
    }
  }

  lemma InsideNotUnresolved(fs: Fs, roots: seq<string>, i: nat, workspace: Path)
    requires i < |roots| && Unresolved(fs, roots[i], workspace)
    ensures !AllInside(fs, roots, workspace)
  {
    hide Segments;
    assert !LiesInside(fs, roots[i], workspace);
  }

  /**
   * Three ways to a scope: the roots on record as they stand, where the workspace is gone or the body's roots no
   * longer lie inside; what they resolve to; and an error nobody catches, where something cannot be resolved.
   */
  lemma ScopeCases(fs: Fs, frozen: Scope, body: Body, isDirectory: bool)
    requires AllNormal(body.allowedRoots) && AllNormal(body.deniedRoots) && body.allowedRoots != []
    requires frozen.allowed != []
    ensures
      var w, r := fs.resolve(frozen.workspace), ScopeOf(fs, frozen, body, isDirectory);
      if w.None? then r == Err(Unresolvable)
      else if !isDirectory then r == Ok(frozen.(workspace := w.value))
      else if Uncaught(fs, body.allowedRoots, w.value)
        || (AllInside(fs, body.allowedRoots, w.value) && Uncaught(fs, body.deniedRoots, w.value)) then
        r == Err(Unresolvable)
      else if !AllInside(fs, body.allowedRoots, w.value) || !AllInside(fs, body.deniedRoots, w.value) then
        r == Ok(frozen.(workspace := w.value))
      else
        && (r.Ok? <==> ResolveAll(fs, frozen.allowed).Some? && ResolveAll(fs, frozen.denied).Some?)
        && (r.Ok? ==> ResolvesTo(fs, frozen, r.value)) && (r.Err? ==> r.error == Unresolvable)
  {
    hide ResolveRoots, ResolveAll, AllInside, NormalizePath, Uncaught;
    if fs.resolve(frozen.workspace).Some? {
      var w := fs.resolve(frozen.workspace).value;
      RootsLieInsideIff(fs, body.allowedRoots, w);
      RootsLieInsideIff(fs, body.deniedRoots, w);
      RootsUncaughtIff(fs, body.allowedRoots, w);
      RootsUncaughtIff(fs, body.deniedRoots, w);
    }
  }

  /** What the audit reports of a live approval: a new binding after none or a failed one, recovery of an open one. */
  lemma ResidualMeans(approval: Option<ApprovalStatus>, binding: Option<BindingStatus>)
    ensures ResidualOf(approval, binding) == RequiresNewBinding <==>
      approval == Some(Approved) && (binding.None? || binding.value in {Failed, Withdrawn})
    ensures ResidualOf(approval, binding) == RequiresRecovery <==>
      approval == Some(Approved) && binding.Some? && binding.value in {Active, Suspended}
  {
  }
}
