/** The campaign gate: what one advance decides, saves and calls, with a crash possible before any effect. */
module Campaign {
  import opened Text
  import opened Proposals

  // ---- Slices ----------------------------------------------------------------------------------

  datatype Capabilities = ReadOnly | ReadWrite | UnsupportedCapabilities

  /** The value under `mission_acceptance`: absent, a criterion object, or any other JSON value. */
  datatype Acceptance =
    | NoAcceptance
    | Criterion(checkId: string, targetId: string, command: seq<string>, expected: string, exactKeys: bool)
    | OtherValue(text: string)

  /** The value under `requested_write_scope`; `roots` is `None` when it is not a list. */
  datatype ScopeField =
    | NoScope
    | NotAnObject(truthy: bool)
    | WriteScope(roots: Option<seq<string>>, targetId: string, baseSha: string)

  /** The value under `write_authority_ref`. */
  datatype RefField = NoRef | NotText(truthy: bool) | Ref(text: string)

  /** A slice of the plan, or a proposal for one; `extra` holds whatever other keys it has. */
  datatype Slice = Slice(
    sliceId: string, parentId: string, scopeTag: string, backend: string, capabilities: Capabilities,
    objective: string, validation: string, acceptance: Acceptance,
    authorityRef: RefField, writeScope: ScopeField, extra: map<string, string>)

  // ---- The durable state -----------------------------------------------------------------------

  datatype Envelope = Envelope(
    backends: set<string>, tags: set<string>, capabilities: Capabilities,
    targetId: string, writeRoots: seq<string>, maxSlices: nat, maxNoProgress: nat)

  datatype Status = CONTINUE | WAITING | DONE | BLOCKED | ESCALATION_REQUIRED

  predicate IsTerminal(s: Status) { s == DONE || s == BLOCKED || s == ESCALATION_REQUIRED }

  datatype Reason =
    | Created | UncertainInflight | InflightDiffers | CompletionRecorded | CompletionWithoutEvidence
    | SliceBudgetExhausted | SliceRefused(refusal: Refusal) | WriteBlocked(block: WriteBlock)
    | HandoffUnavailable | AwaitingResult | BackendMismatch | SliceIncomplete | AcceptanceNotPass
    | MissionAcceptanceNotPass | ProgressMissing | ProgressInvalid | RepeatedNoProgress | AcceptedProgress

  datatype Refusal =
    | OutsideCampaign | ExceedsScope | UnauthorizedBackend | AuthorityExpansion | RawWriteAuthority
    | ReadOnlyCarriesAuthority | NoObjective | DiffersFromPlan

  datatype WriteBlock =
    | AuthorityMissing | OutsideEnvelope | ApprovalInvalid | ApprovalInactive | ApprovalMismatch
    | OutsideApproval | ReceiptMissing | ReceiptInvalid | ScopeNotVerified

  datatype Decision = Continue | Finish | Block | BlockedNoDispatch | BlockedUncertain

  datatype Phase = NotDispatched | PrepareIntent | Prepared | DispatchIntent | Accepted | Terminal

  function Rank(p: Phase): nat {
    match p
    case NotDispatched => 0 case PrepareIntent => 1 case Prepared => 2
    case DispatchIntent => 3 case Accepted => 4 case Terminal => 5
  }

  /** The mission binding shared by all slices; `body` stands for its remaining fields. */
  datatype Mission = Mission(body: string, targetId: string, carriesIdentity: bool)

  /** Handoff id, idempotency key and fingerprint are functions of these, and injective. */
  datatype HandoffId = Derived(mission: Mission, campaignId: string, sliceId: string) | Fresh(text: string)

  datatype Entry = Entry(
    handoff: HandoffId, phase: Phase, preparedRef: string, acceptedRef: string, runId: string,
    decision: Option<Decision>)

  datatype Bound = Bound(mission: Mission, journal: map<string, Entry>)

  datatype Receipt = Receipt(
    receiptId: string, bindingId: string, runId: HandoffId, targetId: string, compliance: string,
    approvalStatus: string, bindingStatus: string, outOfScope: seq<string>, changed: seq<string>)

  /** A completed slice: the slice with its criterion overwritten, and what was recorded with it. */
  datatype Completed = Completed(
    slice: Slice, handoff: HandoffId, runId: string, receipt: Option<Receipt>, decision: Decision)

  /** `ref:sha256`; the hash has a fixed length, so the pair is determined by the text. */
  datatype Fingerprint = Fingerprint(proof: string, sha: string)

  datatype State = State(
    campaignId: string, authority: Envelope, plan: seq<Slice>, status: Status, reason: Reason,
    current: Option<Slice>, completed: seq<Completed>, fingerprints: seq<Fingerprint>, noProgress: nat,
    bound: Option<Bound>)

  // ---- Creating a campaign ---------------------------------------------------------------------

  datatype Request = Request(
    present: bool, campaignId: string, objective: string, backends: set<string>, tags: set<string>,
    plan: seq<Slice>, maxSlices: int, maxNoProgress: int, capabilities: Capabilities,
    targetId: string, roots: seq<string>, mission: Option<Mission>, boundEnabled: bool)

  /** `_scope_path`: a conservative relative path. */
  predicate IsScopePath(s: string) {
    && s != "" && s[0] != '/'
    && (forall i :: 0 <= i < |s| ==> s[i] !in {'\\', '\0', '*', '?'})
    && (forall p :: p in Split(s, '/') ==> p !in {"", ".", ".."})
  }

  predicate Within(path: string, root: string) {
    path == root || root + "/" <= path
  }

  predicate IsWrite(s: Slice) { s.capabilities == ReadWrite }

  function FreshEntry(mission: Mission, campaignId: string, sliceId: string): Entry {
    Entry(Derived(mission, campaignId, sliceId), NotDispatched, "", "", "", None)
  }

  /** `create_campaign`; `None` where it raises. */
  function Create(req: Request): Option<State> {
    if req.present || req.campaignId == "" || Strip(req.objective) == "" || req.backends == {} || req.tags == {} then
      None
    else if !(1 <= req.maxSlices <= 20 && 0 <= req.maxNoProgress <= 2 && 1 <= |req.plan| <= req.maxSlices) then None
    else if req.capabilities == UnsupportedCapabilities then None
    else if req.capabilities == ReadWrite
      && (req.targetId == "" || req.roots == [] || exists i :: 0 <= i < |req.roots| && !IsScopePath(req.roots[i]))
    then None
    else if req.capabilities == ReadOnly && (req.targetId != "" || req.roots != []) then None
    else
      var authority := Envelope(req.backends, req.tags, req.capabilities, req.targetId, req.roots, req.maxSlices,
        req.maxNoProgress);
      var st := State(req.campaignId, authority, req.plan, CONTINUE, Created, None, [], [], 0, None);
      match req.mission
      case None => Some(st)
      case Some(m) =>
        if !req.boundEnabled || m.carriesIdentity then None
        else if req.roots != [] && m.targetId != req.targetId then None
        else if exists s :: s in req.plan && s.acceptance.Criterion? && s.acceptance.targetId != m.targetId then None
        else
          var journal := map id | id in (set s | s in req.plan :: s.sliceId) :: FreshEntry(m, req.campaignId, id);
          Some(st.(bound := Some(Bound(m, journal))))
  }

  // ---- Choosing the next slice -----------------------------------------------------------------

  function SliceId(campaignId: string, n: nat): string {
    campaignId + "-slice-" + Digits(n)
  }

  datatype Candidacy = Admitted(slice: Slice) | Refused(why: Refusal) | IndexError

  predicate Truthy(extra: map<string, string>, key: string) {
    key in extra && extra[key] != ""
  }

  predicate CarriesAuthority(p: Slice) {
    || (match p.authorityRef case NoRef => false case NotText(truthy) => truthy case Ref(text) => text != "")
    || (match p.writeScope case NoScope => false case NotAnObject(truthy) => truthy case WriteScope(_, _, _) => true)
  }

  /** The seven fixed keys, the criterion, and for a write request its authority: nothing else is kept. */
  function Normalized(p: Slice): Slice {
    if IsWrite(p) then
      p.(authorityRef := if p.authorityRef.NoRef? then NotText(false) else p.authorityRef,
         writeScope := if p.writeScope.NoScope? then NotAnObject(false) else p.writeScope, extra := map[])
    else p.(authorityRef := NoRef, writeScope := NoScope, extra := map[])
  }

  /** `_candidate`: the plan is indexed without a bound check, so a proposal past its end raises. */
  function Candidate(st: State, p: Slice): Candidacy {
    var n := |st.completed| + 1;
    if p.sliceId != SliceId(st.campaignId, n) || p.parentId != st.campaignId then Refused(OutsideCampaign)
    else if p.scopeTag !in st.authority.tags then Refused(ExceedsScope)
    else if p.backend !in st.authority.backends then Refused(UnauthorizedBackend)
    else if p.capabilities == UnsupportedCapabilities || (IsWrite(p) && st.authority.capabilities != ReadWrite) then
      Refused(AuthorityExpansion)
    else if Truthy(p.extra, "write_scope_approval") || Truthy(p.extra, "writable_roots") then Refused(RawWriteAuthority)
    else if IsWrite(p) && st.authority.writeRoots == [] then Refused(AuthorityExpansion)
    else if !IsWrite(p) && CarriesAuthority(p) then Refused(ReadOnlyCarriesAuthority)
    else if Strip(p.objective) == "" || Strip(p.validation) == "" then Refused(NoObjective)
    else if n > |st.plan| then IndexError
    else if Normalized(p) != st.plan[n - 1] then Refused(DiffersFromPlan)
    else Admitted(Normalized(p))
  }

  // ---- Write authority -------------------------------------------------------------------------

  /** The frozen body of an approval. */
  datatype Grant = Grant(targetId: string, baseSha: string, allowedRoots: seq<string>, deniedRoots: seq<string>)

  /** Approval ids and their frozen bodies; `None` where the record cannot be read or validated. */
  datatype Grants = Grants(body: string -> Option<Grant>)

  predicate SameItems(a: seq<string>, b: seq<string>) {
    multiset(a) == multiset(b)
  }

  /** The requested roots stay inside the envelope. */
  predicate InsideEnvelope(authority: Envelope, scope: ScopeField) {
    && scope.WriteScope? && scope.roots.Some? && scope.roots.value != []
    && (forall i :: 0 <= i < |scope.roots.value| ==> IsScopePath(scope.roots.value[i]))
    && scope.targetId == authority.targetId && IsSha(scope.baseSha)
    && (forall i :: 0 <= i < |scope.roots.value| ==>
          exists j :: 0 <= j < |authority.writeRoots| && Within(scope.roots.value[i], authority.writeRoots[j]))
  }

  /** The requested roots are those of the approval and touch none it denies. */
  predicate InsideGrant(scope: ScopeField, g: Grant)
    requires scope.WriteScope? && scope.roots.Some?
  {
    && SameItems(g.allowedRoots, scope.roots.value)
    && forall i, j :: 0 <= i < |scope.roots.value| && 0 <= j < |g.deniedRoots| ==>
         !Within(scope.roots.value[i], g.deniedRoots[j]) && !Within(g.deniedRoots[j], scope.roots.value[i])
  }

  /** `_check_write_approval`; `active` is whether the approval is live at this reading. */
  function CheckWriteApproval(st: State, s: Slice, grants: Grants, active: bool): Option<WriteBlock> {
    if !s.authorityRef.Ref? || !("wsa-" <= s.authorityRef.text) || !s.writeScope.WriteScope? then Some(AuthorityMissing)
    else if !InsideEnvelope(st.authority, s.writeScope) then Some(OutsideEnvelope)
    else
      match grants.body(s.authorityRef.text)
      case None => Some(ApprovalInvalid)
      case Some(g) =>
        if !active then Some(ApprovalInactive)
        else if g.targetId != s.writeScope.targetId || g.baseSha != s.writeScope.baseSha then Some(ApprovalMismatch)
        else if !InsideGrant(s.writeScope, g) then Some(OutsideApproval)
        else None
  }

  // ---- What a handoff hands back ---------------------------------------------------------------

  datatype Observation = Observation(
    checkId: string, command: seq<string>, targetId: string, exitCode: int, stdout: string, status: string)

  datatype RunResult = RunResult(
    backend: string, fallbackUnused: bool, completed: bool, sessionId: string, observation: Option<Observation>,
    receipt: Option<Receipt>, approvalId: string, changed: seq<string>)

  /** The binding record re-read after the run, with the slice's roots resolved in its workspace. */
  datatype BindingRecord = BindingRecord(
    bindingId: string, approvalId: string, runId: HandoffId, targetId: string, baseSha: string,
    absolute: bool, roots: seq<string>, expectedRoots: seq<string>, completed: bool)

  /** What `load_status` and the file it names yield. */
  datatype Report =
    | Unreadable | ResultMissing(accepted: bool) | ResultCorrupt
    | ResultFound(finished: bool, result: RunResult)

  datatype Progress = Progress(proof: string, sha: string, intact: bool)

  /** Everything the outside world answers during one advance. */
  datatype Answers = Answers(
    proposal: Option<Slice>,
    activeAtAdmission: bool, activeAtDispatch: bool,
    boundCallbacks: bool, dispatched: Option<string>,
    prepared: Option<HandoffId>, preparedPath: string, packetAfterPrepare: bool, packetBeforeDispatch: bool,
    acceptedRef: Option<string>, reconciled: Option<string>,
    report: Report, acceptancePass: bool,
    binding: Option<BindingRecord>, stored: Option<Receipt>, progress: Option<Progress>)

  const HEAD_COMMAND := ["git", "rev-parse", "HEAD"]

  /** The criterion is an objective check on the revision the target itself names. */
  predicate Objective(s: Slice) {
    var c := s.acceptance;
    && c.Criterion? && c.exactKeys && c.checkId == s.validation && c.command == HEAD_COMMAND
    && IsSha(c.expected) && |c.targetId| > |c.expected|
    && c.targetId[|c.targetId| - |c.expected| - 1..] == ":" + c.expected
  }

  predicate MissionAcceptancePass(s: Slice, r: RunResult) {
    Objective(s) && r.observation.Some? && Confirms(s.acceptance, r.observation.value)
  }

  predicate Confirms(c: Acceptance, o: Observation)
    requires c.Criterion?
  {
    && o.checkId == c.checkId && o.command == c.command && o.targetId == c.targetId
    && o.exitCode == 0 && Strip(o.stdout) == c.expected && o.status == "PASS"
  }

  /** `_check_write_result`: binding and receipt, read again, must agree with the slice and the result. */
  function CheckWriteResult(s: Slice, r: RunResult, handoff: HandoffId, ans: Answers): Option<WriteBlock>
    requires s.writeScope.WriteScope? && s.writeScope.roots.Some?
  {
    if r.receipt.None? then Some(ReceiptMissing)
    else if ans.binding.None? || ans.stored.None? then Some(ReceiptInvalid)
    else
      var b, c := ans.binding.value, ans.stored.value;
      if && s.authorityRef == Ref(b.approvalId) && b.runId == handoff
         && b.targetId == s.writeScope.targetId && b.baseSha == s.writeScope.baseSha
         && b.absolute && SameItems(b.roots, b.expectedRoots) && b.completed && r.approvalId == b.approvalId
         && c == r.receipt.value && c.bindingId == b.bindingId && c.runId == handoff
         && c.targetId == s.writeScope.targetId
         && c.compliance == "within_scope" && c.approvalStatus == "consumed" && c.bindingStatus == "completed"
         && c.outOfScope == [] && c.changed != [] && SameItems(c.changed, r.changed)
         && (forall i :: 0 <= i < |c.changed| ==> UnderSome(c.changed[i], s.writeScope.roots.value))
      then None
      else Some(ScopeNotVerified)
  }

  predicate UnderSome(path: string, roots: seq<string>) {
    exists j :: 0 <= j < |roots| && Within(path, roots[j])
  }

  // ---- Effects and crashes ---------------------------------------------------------------------

  datatype Call = Prepare(sliceId: string) | Dispatch(sliceId: string)

  /**
   * The file, the callbacks made so far, and how many more effects this process lives to perform: once
   * `power` is spent nothing it does reaches the world, which is a crash before that effect.
   */
  datatype World = World(disk: State, calls: seq<Call>, power: nat)

  function Save(w: World, st: State): World {
    if w.power == 0 then w else w.(disk := st, power := w.power - 1)
  }

  function Invoke(w: World, call: Call): World {
    if w.power == 0 then w else w.(calls := w.calls + [call], power := w.power - 1)
  }

  // ---- Dispatching a bound slice ---------------------------------------------------------------

  /** World and in-memory state after a stage; `ok` is false when the stage raised. */
  datatype Stage = Stage(world: World, state: State, ok: bool)

  predicate Journaled(st: State, id: string) {
    st.bound.Some? && id in st.bound.value.journal
  }

  function EntryOf(st: State, id: string): Entry
    requires Journaled(st, id)
  {
    st.bound.value.journal[id]
  }

  function WithEntry(st: State, id: string, e: Entry): State
    requires st.bound.Some?
  {
    st.(bound := Some(st.bound.value.(journal := st.bound.value.journal[id := e])))
  }

  function Enter(st: State, id: string, p: Phase): State
    requires Journaled(st, id)
  {
    WithEntry(st, id, EntryOf(st, id).(phase := p))
  }

  /** Write the intent to prepare, prepare, check the packet, record it. */
  function PrepareStage(w: World, st: State, id: string, ans: Answers): Stage
    requires Journaled(st, id)
  {
    var st1 := if EntryOf(st, id).phase == NotDispatched then Enter(st, id, PrepareIntent) else st;
    var w1 := if EntryOf(st, id).phase == NotDispatched then Save(w, st1) else w;
    if EntryOf(st1, id).phase != PrepareIntent then Stage(w1, st1, true)
    else
      var w2 := Invoke(w1, Prepare(id));
      if ans.prepared != Some(EntryOf(st1, id).handoff) || !ans.packetAfterPrepare then Stage(w2, st1, false)
      else
        var st2 := WithEntry(st1, id, EntryOf(st1, id).(phase := Prepared, preparedRef := ans.preparedPath));
        Stage(Save(w2, st2), st2, true)
  }

  /** Write the intent to dispatch, dispatch, record the acceptance; an old intent is reconciled, never replayed. */
  function DispatchStage(w: World, st: State, id: string, ans: Answers): Stage
    requires Journaled(st, id)
  {
    var phase := EntryOf(st, id).phase;
    if phase in {Prepared, DispatchIntent, Accepted} && !ans.packetBeforeDispatch then Stage(w, st, false)
    else if phase == Prepared then
      var st1 := Enter(st, id, DispatchIntent);
      var w1 := Invoke(Save(w, st1), Dispatch(id));
      if ans.acceptedRef.None? || Strip(ans.acceptedRef.value) == "" then Stage(w1, st1, false)
      else
        var st2 := WithEntry(st1, id, EntryOf(st1, id).(phase := Accepted, acceptedRef := ans.acceptedRef.value));
        Stage(Save(w1, st2), st2, true)
    else if phase == DispatchIntent then
      if ans.reconciled.None? then Stage(w, st, false)
      else
        var st2 := WithEntry(st, id, EntryOf(st, id).(phase := Accepted, acceptedRef := ans.reconciled.value));
        Stage(Save(w, st2), st2, true)
    else Stage(w, st, phase == Accepted)
  }

  /** `_bound_dispatch`. */
  function BoundDispatch(w: World, st: State, s: Slice, grants: Grants, ans: Answers): Stage
    requires st.bound.Some?
  {
    var id := s.sliceId;
    if !ans.boundCallbacks || id !in st.bound.value.journal then Stage(w, st, false)
    else if EntryOf(st, id).handoff != Derived(st.bound.value.mission, st.campaignId, id) then Stage(w, st, false)
    else if Rank(EntryOf(st, id).phase) < 3 && IsWrite(s)
      && CheckWriteApproval(st, s, grants, ans.activeAtDispatch).Some? then Stage(w, st, false)
    else
      var prepared := PrepareStage(w, st, id, ans);
      if !prepared.ok then prepared else DispatchStage(prepared.world, prepared.state, id, ans)
  }

  // ---- One advance -----------------------------------------------------------------------------

  /** The world after an advance; `raised` when an exception escaped it. */
  datatype Turn = Turn(world: World, raised: bool)

  function Stopped(st: State, status: Status, reason: Reason): State {
    st.(status := status, reason := reason)
  }

  /** The handler for a dispatch or result that failed. */
  function FailState(st: State, id: string): State
    requires st.bound.Some? ==> Journaled(st, id)
  {
    var blocked := Stopped(st, BLOCKED, HandoffUnavailable);
    if st.bound.None? then blocked
    else
      var e := EntryOf(st, id);
      WithEntry(blocked, id, e.(decision := Some(if Rank(e.phase) < 3 then BlockedNoDispatch else BlockedUncertain)))
  }

  function Fail(w: World, st: State, id: string): Turn {
    if st.bound.Some? && !Journaled(st, id) then Turn(w, true) else Turn(Save(w, FailState(st, id)), false)
  }

  /** The slice record of a completed slice: its criterion is overwritten with the verdict. */
  function Overwritten(s: Slice): Slice {
    s.(acceptance := OtherValue("PASS"))
  }

  function AddCompleted(st: State, s: Slice, handoff: HandoffId, r: RunResult, receipt: Option<Receipt>,
      f: Fingerprint): State
  {
    var seen := f in st.fingerprints;
    var counted := st.(
      fingerprints := if seen then st.fingerprints else st.fingerprints + [f],
      noProgress := if seen then st.noProgress + 1 else 0);
    if counted.noProgress > st.authority.maxNoProgress then Stopped(counted, BLOCKED, RepeatedNoProgress)
    else
      var decision := if |st.completed| + 1 < |st.plan| then Continue else Finish;
      Stopped(counted, CONTINUE, AcceptedProgress).(
        completed := st.completed + [Completed(Overwritten(s), handoff, r.sessionId, receipt, decision)],
        current := None)
  }

  /** The verdict on a result that could be read. */
  function Judge(st: State, s: Slice, handoff: HandoffId, finished: bool, r: RunResult,
      writeBlock: Option<WriteBlock>, ans: Answers): State
  {
    if r.backend != s.backend || !r.fallbackUnused then Stopped(st, BLOCKED, BackendMismatch)
    else if !finished || !r.completed then Stopped(st, BLOCKED, SliceIncomplete)
    else if !ans.acceptancePass then Stopped(st, BLOCKED, AcceptanceNotPass)
    else if !MissionAcceptancePass(s, r) then Stopped(st, BLOCKED, MissionAcceptanceNotPass)
    else if writeBlock.Some? then Stopped(st, BLOCKED, WriteBlocked(writeBlock.value))
    else
      match ans.progress
      case None => Stopped(st, BLOCKED, ProgressMissing)
      case Some(p) =>
        if p.proof == "" || p.sha == "" then Stopped(st, BLOCKED, ProgressMissing)
        else if !p.intact then Stopped(st, BLOCKED, ProgressInvalid)
        else AddCompleted(st, s, handoff, r, if IsWrite(s) then ans.stored else None, Fingerprint(p.proof, p.sha))
  }

  /** The journal entry of a judged slice is closed with the decision taken. */
  function Close(st: State, id: string, r: RunResult): State
    requires st.bound.Some? ==> Journaled(st, id)
  {
    if st.bound.None? then st
    else
      var decision :=
        if st.status == CONTINUE && st.completed != [] then st.completed[|st.completed| - 1].decision else Block;
      WithEntry(st, id, EntryOf(st, id).(phase := Terminal, runId := r.sessionId, decision := Some(decision)))
  }

  function Settle(w: World, st: State, s: Slice, handoff: HandoffId, finished: bool, r: RunResult, ans: Answers): Turn {
    if IsWrite(s) && !(s.writeScope.WriteScope? && s.writeScope.roots.Some?) then Turn(w, true)
    else if st.bound.Some? && !Journaled(st, s.sliceId) then Turn(w, true)
    else
      var writeBlock := if IsWrite(s) then CheckWriteResult(s, r, handoff, ans) else None;
      var judged := Judge(st, s, handoff, finished, r, writeBlock, ans);
      Turn(Save(w, Close(judged, s.sliceId, r)), false)
  }

  /** Dispatch the current slice and settle it. */
  function Execute(w: World, st: State, s: Slice, grants: Grants, ans: Answers): Turn {
    var dispatched :=
      if st.bound.Some? then BoundDispatch(w, st, s, grants, ans)
      else Stage(Invoke(w, Dispatch(s.sliceId)), st, ans.dispatched.Some?);
    var handoff := if st.bound.Some? then Derived(st.bound.value.mission, st.campaignId, s.sliceId)
                   else Fresh(if ans.dispatched.Some? then ans.dispatched.value else "");
    if !dispatched.ok then Fail(dispatched.world, dispatched.state, s.sliceId)
    else
      match ans.report
      case ResultMissing(accepted) =>
        if st.bound.Some? && accepted then
          Turn(Save(dispatched.world, Stopped(dispatched.state, WAITING, AwaitingResult)), false)
        else Fail(dispatched.world, dispatched.state, s.sliceId)
      case ResultFound(finished, r) => Settle(dispatched.world, dispatched.state, s, handoff, finished, r, ans)
      case _ => Fail(dispatched.world, dispatched.state, s.sliceId)
  }

  /** A fresh proposal: refused, escalated, blocked, or saved as the current slice and executed. */
  function Admit(w: World, st: State, grants: Grants, ans: Answers): Turn {
    if ans.proposal.None? then
      Turn(Save(w,
        if st.completed != [] then Stopped(st, DONE, CompletionRecorded)
        else Stopped(st, BLOCKED, CompletionWithoutEvidence)), false)
    else if |st.completed| >= st.authority.maxSlices then
      Turn(Save(w, Stopped(st, BLOCKED, SliceBudgetExhausted)), false)
    else
      match Candidate(st, ans.proposal.value)
      case IndexError => Turn(w, true)
      case Refused(why) => Turn(Save(w, Stopped(st, ESCALATION_REQUIRED, SliceRefused(why))), false)
      case Admitted(s) =>
        var block := if IsWrite(s) then CheckWriteApproval(st, s, grants, ans.activeAtAdmission) else None;
        if block.Some? then Turn(Save(w, Stopped(st, BLOCKED, WriteBlocked(block.value))), false)
        else
          var st1 := st.(current := Some(s));
          Execute(Save(w, st1), st1, s, grants, ans)
  }

  /** `_advance_campaign_unlocked`. */
  function Advance(w: World, grants: Grants, ans: Answers): Turn {
    var st := w.disk;
    if IsTerminal(st.status) then Turn(w, false)
    else if st.current.None? then Admit(w, st, grants, ans)
    else if st.bound.None? then Turn(Save(w, Stopped(st, BLOCKED, UncertainInflight)), false)
    else if |st.completed| >= |st.plan| || st.current.value != st.plan[|st.completed|] then
      Turn(Save(w, Stopped(st, BLOCKED, InflightDiffers)), false)
    else Execute(w, st, st.current.value, grants, ans)
  }

  /** `next_hermes_decoupling_slice`, the built-in proposer. */
  function NextOfPlan(st: State): Option<Slice> {
    if |st.completed| < |st.plan| then Some(st.plan[|st.completed|]) else None
  }
}
