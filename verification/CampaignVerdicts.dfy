/** What one advance decides, dispatches and completes, read off the file it finds and the answers it gets. */
module CampaignVerdicts {
  import opened Text
  import ScopePaths
  import opened Proposals
  import opened Campaign
  import CampaignSteps
  import opened CampaignRuns

  // ---- What is asked of a slice and of its result ----------------------------------------------

  /** A write slice whose approval may be used now: live, for this target and revision, for exactly these roots. */
  ghost predicate WriteAuthorized(st: State, s: Slice, grants: Grants, active: bool) {
    && s.authorityRef.Ref? && "wsa-" <= s.authorityRef.text && s.writeScope.WriteScope? && s.writeScope.roots.Some?
    && var roots, ref := s.writeScope.roots.value, s.authorityRef.text;
    && roots != [] && s.writeScope.targetId == st.authority.targetId && IsSha(s.writeScope.baseSha)
    && (forall i :: 0 <= i < |roots| ==> IsScopePath(roots[i]) && UnderSome(roots[i], st.authority.writeRoots))
    && active && grants.body(ref).Some?
    && var g := grants.body(ref).value;
    && g.targetId == s.writeScope.targetId && g.baseSha == s.writeScope.baseSha
    && multiset(g.allowedRoots) == multiset(roots)
    && (forall i, j :: 0 <= i < |roots| && 0 <= j < |g.deniedRoots| ==>
          !Within(roots[i], g.deniedRoots[j]) && !Within(g.deniedRoots[j], roots[i]))
  }

  lemma WriteAuthorizedIff(st: State, s: Slice, grants: Grants, active: bool)
    ensures CheckWriteApproval(st, s, grants, active).None? <==> WriteAuthorized(st, s, grants, active)
  {
    hide IsScopePath, IsSha, Within;
  }

  /** The run observed the very revision the criterion names. */
  ghost predicate ObservedHead(s: Slice, o: Option<Observation>) {
    && s.acceptance.Criterion? && s.acceptance.exactKeys && o.Some?
    && var c, seen := s.acceptance, o.value;
    && c.checkId == s.validation == seen.checkId
    && c.command == ["git", "rev-parse", "HEAD"] == seen.command
    && IsSha(c.expected) && Strip(seen.stdout) == c.expected
    && c.targetId == seen.targetId && |c.targetId| > |c.expected|
    && c.targetId[|c.targetId| - |c.expected| - 1..] == ":" + c.expected
    && seen.exitCode == 0 && seen.status == "PASS"
  }

  lemma ObservedHeadIff(s: Slice, r: RunResult)
    ensures MissionAcceptancePass(s, r) <==> ObservedHead(s, r.observation)
  {
    hide IsSha, Strip;
  }

  /** Binding and receipt, read again, are those of this slice and this handoff, consumed, completed and in scope. */
  ghost predicate MutationProven(s: Slice, r: RunResult, handoff: HandoffId, ans: Answers) {
    && s.writeScope.WriteScope? && s.writeScope.roots.Some? && s.authorityRef.Ref?
    && ans.binding.Some? && ans.stored.Some? && r.receipt == ans.stored
    && var b, c := ans.binding.value, ans.stored.value;
    && b.approvalId == s.authorityRef.text == r.approvalId && b.runId == handoff == c.runId
    && b.targetId == s.writeScope.targetId == c.targetId && b.baseSha == s.writeScope.baseSha
    && b.absolute && multiset(b.roots) == multiset(b.expectedRoots) && b.completed && c.bindingId == b.bindingId
    && c.compliance == "within_scope" && c.approvalStatus == "consumed" && c.bindingStatus == "completed"
    && c.outOfScope == [] && c.changed != [] && multiset(c.changed) == multiset(r.changed)
    && (forall i :: 0 <= i < |c.changed| ==> UnderSome(c.changed[i], s.writeScope.roots.value))
  }

  lemma MutationProvenIff(s: Slice, r: RunResult, handoff: HandoffId, ans: Answers)
    requires s.writeScope.WriteScope? && s.writeScope.roots.Some?
    ensures CheckWriteResult(s, r, handoff, ans).None? <==> MutationProven(s, r, handoff, ans)
  {
    hide UnderSome;
  }

  /** A finished run of the slice's own backend, authoritatively accepted, observed, proven and with intact progress. */
  ghost predicate AcceptedRun(s: Slice, handoff: HandoffId, ans: Answers) {
    && ans.report.ResultFound? && ans.report.finished
    && var r := ans.report.result;
    && r.completed && r.backend == s.backend && r.fallbackUnused
    && ans.acceptancePass && ObservedHead(s, r.observation)
    && (s.capabilities == ReadWrite ==> MutationProven(s, r, handoff, ans))
    && ans.progress.Some? && ans.progress.value.intact
    && ans.progress.value.proof != "" && ans.progress.value.sha != ""
  }

  /** New evidence, or one repeat more within the budget. */
  ghost predicate WithinRepeats(st: State, ans: Answers)
    requires ans.progress.Some?
  {
    Fingerprint(ans.progress.value.proof, ans.progress.value.sha) in st.fingerprints ==>
      st.noProgress + 1 <= st.authority.maxNoProgress
  }

  /** `next` is `st` with one slice completed and its evidence counted. */
  ghost predicate OneMore(st: State, next: State, s: Slice, handoff: HandoffId, ans: Answers)
    requires ans.report.ResultFound? && ans.progress.Some?
  {
    var f := Fingerprint(ans.progress.value.proof, ans.progress.value.sha);
    var r := ans.report.result;
    && next.completed == st.completed + [Completed(s.(acceptance := OtherValue("PASS")), handoff, r.sessionId,
         if s.capabilities == ReadWrite then ans.stored else None,
         if |st.completed| + 1 < |st.plan| then Continue else Finish)]
    && next.status == CONTINUE && next.reason == AcceptedProgress && next.current == None
    && next.fingerprints == (if f in st.fingerprints then st.fingerprints else st.fingerprints + [f])
    && next.noProgress == (if f in st.fingerprints then st.noProgress + 1 else 0)
    && next.campaignId == st.campaignId && next.authority == st.authority && next.plan == st.plan
  }

  /** What is wrong with a mutation that was blocked for this reason. */
  ghost predicate MutationGrounds(why: WriteBlock, s: Slice, r: RunResult, handoff: HandoffId, ans: Answers) {
    match why
    case ReceiptMissing => r.receipt.None?
    case ReceiptInvalid => ans.binding.None? || ans.stored.None?
    case ScopeNotVerified => r.receipt.Some? && !MutationProven(s, r, handoff, ans)
    case _ => false
  }

  /** What a reason says about a result that was judged. */
  ghost predicate JudgedGrounds(why: Reason, st: State, s: Slice, handoff: HandoffId, ans: Answers)
    requires ans.report.ResultFound?
  {
    var r := ans.report.result;
    match why
    case BackendMismatch => r.backend != s.backend || !r.fallbackUnused
    case SliceIncomplete => !ans.report.finished || !r.completed
    case AcceptanceNotPass => !ans.acceptancePass
    case MissionAcceptanceNotPass => !ObservedHead(s, r.observation)
    case WriteBlocked(block) => s.capabilities == ReadWrite && MutationGrounds(block, s, r, handoff, ans)
    case ProgressMissing => ans.progress.None? || ans.progress.value.proof == "" || ans.progress.value.sha == ""
    case ProgressInvalid => ans.progress.Some? && !ans.progress.value.intact
    case RepeatedNoProgress => AcceptedRun(s, handoff, ans) && ans.progress.Some? && !WithinRepeats(st, ans)
    case AcceptedProgress => AcceptedRun(s, handoff, ans) && ans.progress.Some? && WithinRepeats(st, ans)
    case _ => false
  }

  lemma MutationGrounded(s: Slice, r: RunResult, handoff: HandoffId, ans: Answers)
    requires s.writeScope.WriteScope? && s.writeScope.roots.Some?
    ensures
      var block := CheckWriteResult(s, r, handoff, ans);
      block.Some? ==> MutationGrounds(block.value, s, r, handoff, ans)
  {
    hide MutationProven;
    MutationProvenIff(s, r, handoff, ans);
  }

  lemma JudgesAccepted(st: State, s: Slice, handoff: HandoffId, finished: bool, r: RunResult,
      block: Option<WriteBlock>, ans: Answers)
    requires ans.report == ResultFound(finished, r)
    requires s.capabilities == ReadWrite ==> (block.None? <==> MutationProven(s, r, handoff, ans))
    requires s.capabilities != ReadWrite ==> block.None?
    requires block.Some? ==> MutationGrounds(block.value, s, r, handoff, ans)
    ensures
      var next := Judge(st, s, handoff, finished, r, block, ans);
      if AcceptedRun(s, handoff, ans) && WithinRepeats(st, ans) then OneMore(st, next, s, handoff, ans)
      else
        && next.status == BLOCKED && next.completed == st.completed && next.current == st.current
        && next.campaignId == st.campaignId && next.authority == st.authority && next.plan == st.plan
        && next.fingerprints == st.fingerprints
        && next.noProgress == st.noProgress + if AcceptedRun(s, handoff, ans) then 1 else 0
    ensures Judge(st, s, handoff, finished, r, block, ans).bound == st.bound
    ensures JudgedGrounds(Judge(st, s, handoff, finished, r, block, ans).reason, st, s, handoff, ans)
  {
    hide MutationProven, ObservedHead, MissionAcceptancePass, MutationGrounds;
    ObservedHeadIff(s, r);
  }

  // ---- Choosing --------------------------------------------------------------------------------

  /** The proposal names the next slice of this campaign and stays inside what the campaign may ask for. */
  ghost predicate InsideParent(st: State, p: Slice) {
    && p.sliceId == st.campaignId + "-slice-" + Digits(|st.completed| + 1) && p.parentId == st.campaignId
    && p.scopeTag in st.authority.tags && p.backend in st.authority.backends
    && p.capabilities in {ReadOnly, ReadWrite}
    && (p.capabilities == ReadWrite ==> st.authority.capabilities == ReadWrite && st.authority.writeRoots != [])
    && (forall key :: key in {"write_scope_approval", "writable_roots"} ==> key in p.extra ==> p.extra[key] == "")
    && (p.capabilities == ReadOnly ==>
          && p.authorityRef in {NoRef, NotText(false), Ref("")} && p.writeScope in {NoScope, NotAnObject(false)})
    && Strip(p.objective) != "" && Strip(p.validation) != ""
  }

  /** The proposal is that slice: the same in every key that is kept. */
  ghost predicate SameRequest(p: Slice, s: Slice) {
    && s.sliceId == p.sliceId && s.parentId == p.parentId && s.scopeTag == p.scopeTag && s.backend == p.backend
    && s.capabilities == p.capabilities && s.objective == p.objective && s.validation == p.validation
    && s.acceptance == p.acceptance && s.extra == map[]
    && (if p.capabilities == ReadWrite then
          && s.authorityRef == (if p.authorityRef == NoRef then NotText(false) else p.authorityRef)
          && s.writeScope == (if p.writeScope == NoScope then NotAnObject(false) else p.writeScope)
        else s.authorityRef == NoRef && s.writeScope == NoScope)
  }

  lemma CandidateIff(st: State, p: Slice)
    ensures Candidate(st, p).Refused? <==>
      !InsideParent(st, p) || (|st.completed| < |st.plan| && !SameRequest(p, st.plan[|st.completed|]))
    ensures Candidate(st, p).Admitted? <==>
      InsideParent(st, p) && |st.completed| < |st.plan| && SameRequest(p, st.plan[|st.completed|])
    ensures Candidate(st, p).Admitted? ==> Candidate(st, p).slice == st.plan[|st.completed|]
  {
    hide Strip, Digits;
  }

  /** A conservative relative path is plain segments between single slashes, without wildcards. */
  lemma ScopePathIff(path: string)
    ensures IsScopePath(path) <==>
      ScopePaths.IsClean(Split(path, '/')) && forall i :: 0 <= i < |path| ==> path[i] !in {'\0', '*', '?'}
  {
    var parts := Split(path, '/');
    SplitFree(path, '/');
    SplitWithin(path);
    if path == "" || path[0] == '/' {
      assert parts[0] == "";
    }
    if IsScopePath(path) {
      forall i | 0 <= i < |parts| ensures ScopePaths.IsSegment(parts[i]) {
        assert parts[i] in parts;
        assert '\\' in parts[i] ==> '\\' in path;
      }
    }
    if ScopePaths.IsClean(parts) {
      ScopePaths.JoinFree(parts);
      JoinSplit(path, '/');
      forall p | p in parts ensures p !in {"", ".", ".."} {
        var i :| 0 <= i < |parts| && parts[i] == p;
      }
      assert forall i :: 0 <= i < |path| ==> path[i] in path;
    }
  }

  // ---- Dispatching -----------------------------------------------------------------------------

  /** The journal knows the slice under its derived identity, and an undispatched write is still authorized. */
  ghost predicate Recognised(st: State, s: Slice, grants: Grants, ans: Answers)
    requires st.bound.Some?
  {
    && ans.boundCallbacks && s.sliceId in st.bound.value.journal
    && var e := st.bound.value.journal[s.sliceId];
    && e.handoff == Derived(st.bound.value.mission, st.campaignId, s.sliceId)
    && (s.capabilities == ReadWrite && e.phase in {NotDispatched, PrepareIntent, Prepared} ==>
          WriteAuthorized(st, s, grants, ans.activeAtDispatch))
  }

  /** The slice is to be prepared first. */
  ghost predicate Prepares(st: State, s: Slice, grants: Grants, ans: Answers) {
    st.bound.Some? && Recognised(st, s, grants, ans)
    && st.bound.value.journal[s.sliceId].phase in {NotDispatched, PrepareIntent}
  }

  /** Preparing, where it is due, answers the same handoff with an intact packet; the packet is intact before use. */
  ghost predicate PacketHolds(st: State, s: Slice, grants: Grants, ans: Answers)
    requires st.bound.Some? && Recognised(st, s, grants, ans)
  {
    && ans.packetBeforeDispatch
    && (Prepares(st, s, grants, ans) ==>
          ans.prepared == Some(st.bound.value.journal[s.sliceId].handoff) && ans.packetAfterPrepare)
  }

  /** The dispatch callback is made. */
  ghost predicate Sends(st: State, s: Slice, grants: Grants, ans: Answers) {
    st.bound.None? || (
      && Recognised(st, s, grants, ans) && PacketHolds(st, s, grants, ans)
      && st.bound.value.journal[s.sliceId].phase in {NotDispatched, PrepareIntent, Prepared})
  }

  /** The slice counts as dispatched: now, by an acceptance on file, or by a reconciled intent. */
  ghost predicate Sent(st: State, s: Slice, grants: Grants, ans: Answers) {
    if st.bound.None? then ans.dispatched.Some?
    else
      && Recognised(st, s, grants, ans) && PacketHolds(st, s, grants, ans)
      && var phase := st.bound.value.journal[s.sliceId].phase;
      && phase != Terminal
      && (phase in {NotDispatched, PrepareIntent, Prepared} ==>
            ans.acceptedRef.Some? && Strip(ans.acceptedRef.value) != "")
      && (phase == DispatchIntent ==> ans.reconciled.Some?)
  }

  /** The journal entry once the slice was dispatched as far as the answers allow. */
  ghost function Reached(st: State, s: Slice, grants: Grants, ans: Answers): Entry
    requires Journaled(st, s.sliceId)
  {
    var e := EntryOf(st, s.sliceId);
    if !Recognised(st, s, grants, ans) then e
    else if Prepares(st, s, grants, ans) && !(ans.prepared == Some(e.handoff) && ans.packetAfterPrepare) then
      e.(phase := PrepareIntent)
    else
      var ready := if Prepares(st, s, grants, ans) then e.(phase := Prepared, preparedRef := ans.preparedPath) else e;
      if ready.phase == Prepared && ans.packetBeforeDispatch then
        if ans.acceptedRef.None? || Strip(ans.acceptedRef.value) == "" then ready.(phase := DispatchIntent)
        else ready.(phase := Accepted, acceptedRef := ans.acceptedRef.value)
      else if ready.phase == DispatchIntent && ans.packetBeforeDispatch && ans.reconciled.Some? then
        ready.(phase := Accepted, acceptedRef := ans.reconciled.value)
      else ready
  }

  /** The callbacks of an advance on this slice, in order. */
  ghost function CallsOf(st: State, s: Slice, grants: Grants, ans: Answers): seq<Call> {
    (if Prepares(st, s, grants, ans) then [Prepare(s.sliceId)] else []) +
    (if Sends(st, s, grants, ans) then [Dispatch(s.sliceId)] else [])
  }

  /** Only the journal differs. */
  ghost predicate JournalMoved(st: State, next: State) {
    && next == st.(bound := next.bound)
    && (st.bound.None? ==> next == st)
    && (st.bound.Some? ==>
          && next.bound.Some? && next.bound.value.mission == st.bound.value.mission
          && st.bound.value.journal.Keys == next.bound.value.journal.Keys)
  }

  /** What a stage leaves of the world: at most the journal on file moved, at most `cost` effects were spent. */
  ghost predicate Along(w: World, st: State, next: World, cost: nat) {
    && (next.disk == w.disk || JournalMoved(st, next.disk)) && next.power <= w.power <= next.power + cost
  }

  ghost predicate Calls(w: World, next: World, calls: seq<Call>, cost: nat) {
    && w.calls <= next.calls <= w.calls + calls && (w.power >= cost ==> next.calls == w.calls + calls)
    && (w.power == 0 ==> next.calls == w.calls) && (next.calls == w.calls + calls || next.power == 0)
  }

  lemma EntryTwice(st: State, id: string, first: Entry, second: Entry)
    requires Journaled(st, id)
    ensures WithEntry(WithEntry(st, id, first), id, second) == WithEntry(st, id, second)
    ensures WithEntry(st, id, EntryOf(st, id)) == st
  {
    var journal := st.bound.value.journal;
    assert journal[id := first][id := second] == journal[id := second];
    assert journal[id := journal[id]] == journal;
  }

  lemma PrepareSays(w: World, st: State, id: string, ans: Answers)
    requires Journaled(st, id)
    ensures
      var r, phase := PrepareStage(w, st, id, ans), EntryOf(st, id).phase;
      var due := phase in {NotDispatched, PrepareIntent};
      && (r.ok <==> (due ==> ans.prepared == Some(EntryOf(st, id).handoff) && ans.packetAfterPrepare))
      && JournalMoved(st, r.state) && Journaled(r.state, id) && Along(w, st, r.world, 3)
      && Calls(w, r.world, if due then [Prepare(id)] else [], 2)
      && (!due ==> r.state == st)
      && (due ==>
            r.state == WithEntry(st, id,
              if r.ok then EntryOf(st, id).(phase := Prepared, preparedRef := ans.preparedPath)
              else EntryOf(st, id).(phase := PrepareIntent)))
  {
    var e := EntryOf(st, id);
    EntryTwice(st, id, e.(phase := PrepareIntent), e.(phase := Prepared, preparedRef := ans.preparedPath));
  }

  lemma DispatchSays(w: World, st: State, id: string, ans: Answers)
    requires Journaled(st, id)
    ensures
      var r, phase := DispatchStage(w, st, id, ans), EntryOf(st, id).phase;
      && (r.ok <==>
            && phase in {Prepared, DispatchIntent, Accepted} && ans.packetBeforeDispatch
            && (phase == Prepared ==> ans.acceptedRef.Some? && Strip(ans.acceptedRef.value) != "")
            && (phase == DispatchIntent ==> ans.reconciled.Some?))
      && JournalMoved(st, r.state) && Journaled(r.state, id) && Along(w, st, r.world, 3)
      && Calls(w, r.world, if phase == Prepared && ans.packetBeforeDispatch then [Dispatch(id)] else [], 2)
      && r.state == (
           if phase == Prepared && ans.packetBeforeDispatch then
             WithEntry(st, id, if r.ok then EntryOf(st, id).(phase := Accepted, acceptedRef := ans.acceptedRef.value)
                               else EntryOf(st, id).(phase := DispatchIntent))
           else if phase == DispatchIntent && r.ok then
             WithEntry(st, id, EntryOf(st, id).(phase := Accepted, acceptedRef := ans.reconciled.value))
           else st)
  {
    hide Strip;
    if ans.acceptedRef.Some? {
      var e := EntryOf(st, id);
      EntryTwice(st, id, e.(phase := DispatchIntent), e.(phase := Accepted, acceptedRef := ans.acceptedRef.value));
    }
  }

  lemma BoundSays(w: World, st: State, s: Slice, grants: Grants, ans: Answers)
    requires st.bound.Some?
    ensures
      var r := BoundDispatch(w, st, s, grants, ans);
      && (r.ok <==> Sent(st, s, grants, ans)) && JournalMoved(st, r.state) && Along(w, st, r.world, 6)
      && Calls(w, r.world, CallsOf(st, s, grants, ans), 6)
      && (if Journaled(st, s.sliceId) then r.state == WithEntry(st, s.sliceId, Reached(st, s, grants, ans))
          else r.state == st)
  {
    hide PrepareStage, DispatchStage, CheckWriteApproval, WriteAuthorized, Strip;
    var id := s.sliceId;
    WriteAuthorizedIff(st, s, grants, ans.activeAtDispatch);
    if Journaled(st, id) {
      EarlyRanks(EntryOf(st, id).phase);
      EntryTwice(st, id, EntryOf(st, id), EntryOf(st, id));
      if Recognised(st, s, grants, ans) {
        PrepareSays(w, st, id, ans);
        var prepared := PrepareStage(w, st, id, ans);
        if prepared.ok {
          DispatchSays(prepared.world, prepared.state, id, ans);
          var r := DispatchStage(prepared.world, prepared.state, id, ans);
          EntryTwice(st, id, EntryOf(prepared.state, id), EntryOf(r.state, id));
          CallsJoin(w, prepared.world, r.world, if Prepares(st, s, grants, ans) then [Prepare(id)] else [],
            if Sends(st, s, grants, ans) then [Dispatch(id)] else []);
        } else {
          assert CallsOf(st, s, grants, ans) == [Prepare(id)];
        }
      }
    }
  }

  lemma EarlyRanks(p: Phase)
    ensures Rank(p) < 3 <==> p in {NotDispatched, PrepareIntent, Prepared}
  {
  }

  lemma CallsJoin(a: World, b: World, c: World, first: seq<Call>, second: seq<Call>)
    requires Calls(a, b, first, 2) && Calls(b, c, second, 2) && c.power <= b.power <= a.power <= b.power + 3
    ensures Calls(a, c, first + second, 6)
  {
    assert a.calls + (first + second) == (a.calls + first) + second;
    assert a.calls + first <= a.calls + (first + second);
  }

  // ---- Executing and settling ------------------------------------------------------------------

  lemma DispatchingSays(w: World, st: State, s: Slice, grants: Grants, ans: Answers)
    ensures
      var r := Dispatching(w, st, s, grants, ans);
      && (r.ok <==> Sent(st, s, grants, ans)) && JournalMoved(st, r.state) && Along(w, st, r.world, 6)
      && Calls(w, r.world, CallsOf(st, s, grants, ans), 6)
      && (if Journaled(st, s.sliceId) then r.state == WithEntry(st, s.sliceId, Reached(st, s, grants, ans))
          else r.state == st)
  {
    hide BoundDispatch, Sends, Recognised, Reached;
    if st.bound.Some? {
      BoundSays(w, st, s, grants, ans);
    } else {
      assert CallsOf(st, s, grants, ans) == [Dispatch(s.sliceId)] by { UnboundCalls(st, s, grants, ans); }
    }
  }

  lemma UnboundCalls(st: State, s: Slice, grants: Grants, ans: Answers)
    requires st.bound.None?
    ensures CallsOf(st, s, grants, ans) == [Dispatch(s.sliceId)]
  {
  }

  /** The handoff a slice goes by. */
  function HandoffOf(st: State, s: Slice, ans: Answers): HandoffId {
    if st.bound.Some? then Derived(st.bound.value.mission, st.campaignId, s.sliceId)
    else Fresh(if ans.dispatched.Some? then ans.dispatched.value else "")
  }

  /** The slice is completed by this advance. */
  ghost predicate Completes(st: State, s: Slice, grants: Grants, ans: Answers) {
    Sent(st, s, grants, ans) && AcceptedRun(s, HandoffOf(st, s, ans), ans) && WithinRepeats(st, ans)
  }

  /** An accepted dispatch whose result is still to come. */
  ghost predicate Awaits(st: State, s: Slice, grants: Grants, ans: Answers) {
    st.bound.Some? && Sent(st, s, grants, ans) && ans.report == ResultMissing(true)
  }

  /** Nothing but status, reason, evidence count and journal moved. */
  ghost predicate Halted(st: State, next: State, status: Status) {
    && next.status == status && next.completed == st.completed && next.current == st.current
    && next.campaignId == st.campaignId && next.authority == st.authority && next.plan == st.plan
    && next.fingerprints == st.fingerprints
  }

  /** What a reason says about a slice that was executed. */
  ghost predicate ExecutedGrounds(why: Reason, st: State, s: Slice, grants: Grants, ans: Answers) {
    if why == AwaitingResult then Awaits(st, s, grants, ans)
    else if why == HandoffUnavailable then
      !Sent(st, s, grants, ans) || (!ans.report.ResultFound? && !Awaits(st, s, grants, ans))
    else
      && Sent(st, s, grants, ans) && ans.report.ResultFound?
      && JudgedGrounds(why, st, s, HandoffOf(st, s, ans), ans)
  }

  /** The decision recorded with a judged slice. */
  ghost function DecisionOf(st: State, accepted: bool): Decision {
    if !accepted then Block else if |st.completed| + 1 < |st.plan| then Continue else Finish
  }

  ghost function Judged(e: Entry, runId: string, decision: Decision): Entry {
    e.(phase := Terminal, runId := runId, decision := Some(decision))
  }

  /** The journal entry of the slice when everything is done. */
  ghost function LastEntry(st: State, s: Slice, grants: Grants, ans: Answers): Entry
    requires Journaled(st, s.sliceId)
  {
    var e := Reached(st, s, grants, ans);
    if Awaits(st, s, grants, ans) then e
    else if Sent(st, s, grants, ans) && ans.report.ResultFound? then
      Judged(e, ans.report.result.sessionId, DecisionOf(st, Completes(st, s, grants, ans)))
    else e.(decision := Some(if e.phase in {NotDispatched, PrepareIntent, Prepared} then BlockedNoDispatch
                             else BlockedUncertain))
  }

  /** What is saved at the end of executing a slice. */
  ghost predicate Verdict(st: State, s: Slice, grants: Grants, ans: Answers, last: State) {
    && (if Completes(st, s, grants, ans) then OneMore(st, last, s, HandoffOf(st, s, ans), ans)
        else
          && Halted(st, last, if Awaits(st, s, grants, ans) then WAITING else BLOCKED)
          && last.noProgress == st.noProgress +
               if Sent(st, s, grants, ans) && AcceptedRun(s, HandoffOf(st, s, ans), ans) then 1 else 0)
    && ExecutedGrounds(last.reason, st, s, grants, ans)
    && last.bound ==
         if Journaled(st, s.sliceId) then WithEntry(st, s.sliceId, LastEntry(st, s, grants, ans)).bound else st.bound
  }

  /** The write scope of the slice is no object with a list of roots, which the code does not survive. */
  ghost predicate Malformed(s: Slice) {
    s.capabilities == ReadWrite && !(s.writeScope.WriteScope? && s.writeScope.roots.Some?)
  }

  lemma SettleSays(w: World, st: State, s: Slice, handoff: HandoffId, finished: bool, r: RunResult, ans: Answers)
    returns (last: State)
    requires ans.report == ResultFound(finished, r) && !Malformed(s) && (st.bound.Some? ==> Journaled(st, s.sliceId))
    ensures
      var t := Settle(w, st, s, handoff, finished, r, ans);
      && !t.raised && t.world == Save(w, last)
      && if AcceptedRun(s, handoff, ans) && WithinRepeats(st, ans) then OneMore(st, last, s, handoff, ans)
         else
           && Halted(st, last, BLOCKED)
           && last.noProgress == st.noProgress + if AcceptedRun(s, handoff, ans) then 1 else 0
    ensures JudgedGrounds(last.reason, st, s, handoff, ans)
    ensures last.bound ==
      if st.bound.None? then None
      else
        WithEntry(st, s.sliceId, Judged(EntryOf(st, s.sliceId), r.sessionId,
          DecisionOf(st, AcceptedRun(s, handoff, ans) && WithinRepeats(st, ans)))).bound
  {
    hide Campaign.Judge, CheckWriteResult, MutationProven, AcceptedRun, Save, MutationGrounds, JudgedGrounds;
    var block := if IsWrite(s) then CheckWriteResult(s, r, handoff, ans) else None;
    if IsWrite(s) {
      MutationProvenIff(s, r, handoff, ans);
      MutationGrounded(s, r, handoff, ans);
    }
    JudgesAccepted(st, s, handoff, finished, r, block, ans);
    if AcceptedRun(s, handoff, ans) {
      AcceptedHasProgress(s, handoff, ans);
    }
    last := Close(Campaign.Judge(st, s, handoff, finished, r, block, ans), s.sliceId, r);
    assert Settle(w, st, s, handoff, finished, r, ans).world == Save(w, last);
  }

  lemma AcceptedHasProgress(s: Slice, handoff: HandoffId, ans: Answers)
    requires AcceptedRun(s, handoff, ans)
    ensures ans.report.ResultFound? && ans.progress.Some?
  {
  }

  /** Executing a slice: its callbacks, whether it raises, and what it saves last. */
  lemma ExecuteSays(w: World, st: State, s: Slice, grants: Grants, ans: Answers) returns (last: State, before: World)
    ensures
      var t := Execute(w, st, s, grants, ans);
      && (t.raised <==>
            || (st.bound.Some? && s.sliceId !in st.bound.value.journal)
            || (Sent(st, s, grants, ans) && ans.report.ResultFound? && Malformed(s)))
      && Along(w, st, before, 6) && Calls(w, before, CallsOf(st, s, grants, ans), 6)
      && (t.raised ==> t.world == before) && (!t.raised ==> t.world == Save(before, last))
      && (!t.raised ==> Verdict(st, s, grants, ans, last))
  {
    hide BoundDispatch, Settle, Save, Sent, AcceptedRun, WithinRepeats, CallsOf, Malformed, Reached;
    DispatchingSays(w, st, s, grants, ans);
    var r := Dispatching(w, st, s, grants, ans);
    if Journaled(st, s.sliceId) {
      EntryTwice(st, s.sliceId, Reached(st, s, grants, ans), LastEntry(st, s, grants, ans));
    }
    before := r.world;
    last := FailedState(r.state, s.sliceId);
    FailSays(r.world, r.state, s.sliceId);
    SentIsJournaled(st, s, grants, ans);
    if r.ok && ans.report.ResultFound? && !Malformed(s) {
      last := SettleSays(r.world, r.state, s, HandoffOf(st, s, ans), ans.report.finished, ans.report.result, ans);
      Carries(st, r.state, last, s, HandoffOf(st, s, ans), ans);
    } else if r.ok && ans.report.ResultFound? {
      RaisesMalformed(r.world, r.state, s, HandoffOf(st, s, ans), ans.report.finished, ans.report.result, ans);
    } else if Awaits(st, s, grants, ans) {
      last := Stopped(r.state, WAITING, AwaitingResult);
    }
    NotFoundNotAccepted(s, HandoffOf(st, s, ans), ans);
  }

  function FailedState(st: State, id: string): State {
    if st.bound.Some? && !Journaled(st, id) then st else FailState(st, id)
  }

  lemma FailSays(w: World, st: State, id: string)
    ensures
      var t := Fail(w, st, id);
      && (t.raised <==> st.bound.Some? && !Journaled(st, id))
      && (if t.raised then t.world == w else t.world == Save(w, FailedState(st, id)))
      && (!t.raised ==>
            && Halted(st, FailedState(st, id), BLOCKED) && FailedState(st, id).noProgress == st.noProgress
            && FailedState(st, id).reason == HandoffUnavailable)
      && (Journaled(st, id) ==>
            var e := EntryOf(st, id);
            FailedState(st, id).bound == WithEntry(st, id, e.(decision := Some(
              if e.phase in {NotDispatched, PrepareIntent, Prepared} then BlockedNoDispatch
              else BlockedUncertain))).bound)
  {
    hide Save;
  }

  lemma SentIsJournaled(st: State, s: Slice, grants: Grants, ans: Answers)
    ensures Sent(st, s, grants, ans) && st.bound.Some? ==> s.sliceId in st.bound.value.journal
  {
  }

  lemma NotFoundNotAccepted(s: Slice, handoff: HandoffId, ans: Answers)
    ensures AcceptedRun(s, handoff, ans) ==> ans.report.ResultFound? && !Malformed(s) && ans.progress.Some?
  {
  }

  lemma RaisesMalformed(w: World, st: State, s: Slice, handoff: HandoffId, finished: bool, r: RunResult, ans: Answers)
    requires Malformed(s)
    ensures Settle(w, st, s, handoff, finished, r, ans) == Turn(w, true)
  {
    hide Campaign.Judge, CheckWriteResult;
  }

  /** The verdict reads nothing of the journal. */
  lemma Carries(st: State, moved: State, last: State, s: Slice, handoff: HandoffId, ans: Answers)
    requires JournalMoved(st, moved)
    ensures forall status :: Halted(moved, last, status) ==> Halted(st, last, status)
    ensures ans.report.ResultFound? && JudgedGrounds(last.reason, moved, s, handoff, ans) ==>
      JudgedGrounds(last.reason, st, s, handoff, ans)
    ensures AcceptedRun(s, handoff, ans) ==>
      && ans.progress.Some? && ans.report.ResultFound? && (WithinRepeats(moved, ans) <==> WithinRepeats(st, ans))
      && (OneMore(moved, last, s, handoff, ans) ==> OneMore(st, last, s, handoff, ans))
  {
    hide ObservedHead, MutationProven;
  }

  // ---- The advance -----------------------------------------------------------------------------

  /** The advance works on the next slice of the plan: it is in flight, or freshly proposed and allowed. */
  ghost predicate Selected(st: State, grants: Grants, ans: Answers) {
    && st.status in {CONTINUE, WAITING} && |st.completed| < |st.plan|
    && var s := st.plan[|st.completed|];
    && (st.current.Some? ==> st.bound.Some? && st.current.value == s)
    && (st.current.None? ==>
          && ans.proposal.Some? && |st.completed| < st.authority.maxSlices
          && InsideParent(st, ans.proposal.value) && SameRequest(ans.proposal.value, s)
          && (s.capabilities == ReadWrite ==> WriteAuthorized(st, s, grants, ans.activeAtAdmission)))
  }

  /** The state with its next slice taken up. */
  function Taken(st: State): State
    requires |st.completed| < |st.plan|
  {
    st.(current := Some(st.plan[|st.completed|]))
  }

  /** A proposal that no code path survives: right in every respect, but past the end of the plan. */
  ghost predicate PastPlan(st: State, ans: Answers) {
    && st.status in {CONTINUE, WAITING} && st.current.None? && ans.proposal.Some?
    && |st.plan| <= |st.completed| < st.authority.maxSlices && InsideParent(st, ans.proposal.value)
  }

  /** What a refusal says about the proposal. */
  ghost predicate RefusalGrounds(why: Refusal, st: State, p: Slice) {
    match why
    case OutsideCampaign =>
      p.sliceId != st.campaignId + "-slice-" + Digits(|st.completed| + 1) || p.parentId != st.campaignId
    case ExceedsScope => p.scopeTag !in st.authority.tags
    case UnauthorizedBackend => p.backend !in st.authority.backends
    case AuthorityExpansion =>
      || p.capabilities !in {ReadOnly, ReadWrite}
      || (p.capabilities == ReadWrite && (st.authority.capabilities != ReadWrite || st.authority.writeRoots == []))
    case RawWriteAuthority =>
      exists key :: key in {"write_scope_approval", "writable_roots"} && key in p.extra && p.extra[key] != ""
    case ReadOnlyCarriesAuthority =>
      && p.capabilities == ReadOnly
      && (p.authorityRef !in {NoRef, NotText(false), Ref("")} || p.writeScope !in {NoScope, NotAnObject(false)})
    case NoObjective => Strip(p.objective) == "" || Strip(p.validation) == ""
    case DiffersFromPlan => |st.completed| < |st.plan| && !SameRequest(p, st.plan[|st.completed|])
  }

  /** What a block says about the write authority a slice asks for. */
  ghost predicate AuthorityGrounds(why: WriteBlock, st: State, s: Slice, grants: Grants, active: bool) {
    if why == AuthorityMissing then
      !s.authorityRef.Ref? || !("wsa-" <= s.authorityRef.text) || !s.writeScope.WriteScope?
    else
      && s.authorityRef.Ref? && s.writeScope.WriteScope?
      && var found, scope := grants.body(s.authorityRef.text), s.writeScope;
      match why
      case OutsideEnvelope =>
        || scope.roots.None? || scope.roots.value == [] || scope.targetId != st.authority.targetId
        || !IsSha(scope.baseSha)
        || !(forall i :: 0 <= i < |scope.roots.value| ==>
               IsScopePath(scope.roots.value[i]) && UnderSome(scope.roots.value[i], st.authority.writeRoots))
      case ApprovalInvalid => found.None?
      case ApprovalInactive => !active
      case ApprovalMismatch => found.Some?
        && (found.value.targetId != scope.targetId || found.value.baseSha != scope.baseSha)
      case OutsideApproval =>
        && found.Some? && scope.roots.Some?
        && var roots, denied := scope.roots.value, found.value.deniedRoots;
        || multiset(found.value.allowedRoots) != multiset(roots)
        || !(forall i, j :: 0 <= i < |roots| && 0 <= j < |denied| ==>
               !Within(roots[i], denied[j]) && !Within(denied[j], roots[i]))
      case _ => false
  }

  /** What a reason says about an advance that works on no slice. */
  ghost predicate AdmissionGrounds(why: Reason, st: State, grants: Grants, ans: Answers) {
    match why
    case CompletionRecorded => ans.proposal.None? && st.completed != []
    case CompletionWithoutEvidence => ans.proposal.None? && st.completed == []
    case UncertainInflight => st.current.Some? && st.bound.None?
    case InflightDiffers =>
      st.current.Some? && (|st.completed| >= |st.plan| || st.current.value != st.plan[|st.completed|])
    case SliceBudgetExhausted => |st.completed| >= st.authority.maxSlices
    case SliceRefused(refusal) => ans.proposal.Some? && RefusalGrounds(refusal, st, ans.proposal.value)
    case WriteBlocked(block) =>
      && |st.completed| < |st.plan| && st.plan[|st.completed|].capabilities == ReadWrite
      && AuthorityGrounds(block, st, st.plan[|st.completed|], grants, ans.activeAtAdmission)
    case _ => false
  }

  lemma RefusalGrounded(st: State, p: Slice)
    ensures Candidate(st, p).Refused? ==> RefusalGrounds(Candidate(st, p).why, st, p)
  {
    hide Strip, Digits;
  }

  lemma AuthorityGrounded(st: State, s: Slice, grants: Grants, active: bool)
    ensures
      var block := CheckWriteApproval(st, s, grants, active);
      block.Some? ==> AuthorityGrounds(block.value, st, s, grants, active)
  {
    hide IsScopePath, IsSha, Within;
    if s.writeScope.WriteScope? && s.writeScope.roots.Some? {
      var roots := s.writeScope.roots.value;
      if forall i :: 0 <= i < |roots| ==> IsScopePath(roots[i]) && UnderSome(roots[i], st.authority.writeRoots) {
        forall i | 0 <= i < |roots|
          ensures exists j :: 0 <= j < |st.authority.writeRoots| && Within(roots[i], st.authority.writeRoots[j])
        {
          assert UnderSome(roots[i], st.authority.writeRoots);
        }
      }
    }
  }

  /** Where an advance ends that works on no slice. */
  ghost function Unselected(st: State, ans: Answers): Status {
    if st.current.Some? then BLOCKED
    else if ans.proposal.None? then if st.completed != [] then DONE else BLOCKED
    else if |st.completed| >= st.authority.maxSlices then BLOCKED
    else if !InsideParent(st, ans.proposal.value)
      || (|st.completed| < |st.plan| && !SameRequest(ans.proposal.value, st.plan[|st.completed|])) then
      ESCALATION_REQUIRED
    else BLOCKED
  }

  lemma AdvanceUnselected(w: World, grants: Grants, ans: Answers)
    requires !Selected(w.disk, grants, ans) && w.disk.status in {CONTINUE, WAITING}
    ensures
      var t := Advance(w, grants, ans);
      && t.world.calls == w.calls && (t.raised <==> PastPlan(w.disk, ans))
      && (t.world.disk == w.disk || Halted(w.disk, t.world.disk, Unselected(w.disk, ans)))
      && (w.power > 0 && !t.raised ==>
            && Halted(w.disk, t.world.disk, Unselected(w.disk, ans)) && t.world.disk.noProgress == w.disk.noProgress
            && t.world.disk.bound == w.disk.bound && AdmissionGrounds(t.world.disk.reason, w.disk, grants, ans))
  {
    hide Execute, Candidate, CheckWriteApproval, InsideParent, SameRequest, WriteAuthorized, RefusalGrounds,
      AuthorityGrounds;
    var st := w.disk;
    if st.current.None? && ans.proposal.Some? {
      CandidateIff(st, ans.proposal.value);
      RefusalGrounded(st, ans.proposal.value);
      if |st.completed| < |st.plan| {
        AuthorityGrounded(st, st.plan[|st.completed|], grants, ans.activeAtAdmission);
        WriteAuthorizedIff(st, st.plan[|st.completed|], grants, ans.activeAtAdmission);
      }
    }
  }

  lemma AdvanceSelected(w: World, grants: Grants, ans: Answers) returns (last: State, before: World)
    requires Selected(w.disk, grants, ans)
    ensures
      var st, t := Taken(w.disk), Advance(w, grants, ans);
      var s := st.current.value;
      && (t.raised <==>
            || (st.bound.Some? && s.sliceId !in st.bound.value.journal)
            || (Sent(st, s, grants, ans) && ans.report.ResultFound? && Malformed(s)))
      && Calls(w, before, CallsOf(st, s, grants, ans), 7) && before.power <= w.power <= before.power + 7
      && before.disk.completed == w.disk.completed
      && (t.raised ==> t.world == before) && (!t.raised ==> t.world == Save(before, last))
      && (!t.raised ==> Verdict(st, s, grants, ans, last))
  {
    hide Execute, Candidate, CheckWriteApproval, InsideParent, SameRequest, WriteAuthorized, CallsOf, Sent, Verdict,
      Malformed;
    var st := Taken(w.disk);
    var s := st.current.value;
    if w.disk.current.None? {
      CandidateIff(w.disk, ans.proposal.value);
      WriteAuthorizedIff(w.disk, s, grants, ans.activeAtAdmission);
      last, before := ExecuteSays(Save(w, st), st, s, grants, ans);
    } else {
      assert st == w.disk;
      last, before := ExecuteSays(w, st, s, grants, ans);
    }
  }

  // ---- Theorems --------------------------------------------------------------------------------

  /**
   * A slice is completed only when everything that is asked of it holds, field by field: it was selected, dispatched,
   * run to its end by its own backend, authoritatively accepted, observed at its revision, proven where it writes, and
   * within the repeat budget. A process that lives long enough completes it whenever that holds.
   */
  lemma CompletesIff(w: World, grants: Grants, ans: Answers)
    ensures
      var st, next := w.disk, Advance(w, grants, ans).world.disk;
      |next.completed| != |st.completed| ==>
        && Selected(st, grants, ans)
        && var s := st.plan[|st.completed|];
        && Completes(Taken(st), s, grants, ans) && OneMore(st, next, s, HandoffOf(st, s, ans), ans)
    ensures
      var st, next := w.disk, Advance(w, grants, ans).world.disk;
      w.power >= 8 && Selected(st, grants, ans) && Completes(Taken(st), st.plan[|st.completed|], grants, ans) ==>
        |next.completed| == |st.completed| + 1
  {
    hide Advance, CallsOf, Sent, AcceptedRun, WithinRepeats, InsideParent, SameRequest, WriteAuthorized;
    var st := w.disk;
    if Selected(st, grants, ans) {
      var last, before := AdvanceSelected(w, grants, ans);
      NotFoundNotAccepted(Taken(st).current.value, HandoffOf(Taken(st), Taken(st).current.value, ans), ans);
      SentIsJournaled(Taken(st), Taken(st).current.value, grants, ans);
    } else if st.status in {CONTINUE, WAITING} {
      AdvanceUnselected(w, grants, ans);
    } else {
      ClosedAdvance(w, grants, ans);
    }
  }

  lemma ClosedAdvance(w: World, grants: Grants, ans: Answers)
    requires w.disk.status !in {CONTINUE, WAITING}
    ensures Advance(w, grants, ans) == Turn(w, false)
  {
  }

  /**
   * The callbacks of an advance, wherever it crashes, are the first of those its slice is due: to prepare it when the
   * journal says so, to dispatch it when it was never dispatched and its packet holds; and all of them if it lives.
   */
  lemma CallsAreDue(w: World, grants: Grants, ans: Answers)
    ensures
      var st, next := w.disk, Advance(w, grants, ans).world;
      var due := if Selected(st, grants, ans) then CallsOf(Taken(st), st.plan[|st.completed|], grants, ans) else [];
      w.calls <= next.calls <= w.calls + due && (w.power >= 8 ==> next.calls == w.calls + due)
  {
    hide Advance, CallsOf, Sent, AcceptedRun, WithinRepeats, InsideParent, SameRequest, WriteAuthorized, Verdict;
    if Selected(w.disk, grants, ans) {
      var last, before := AdvanceSelected(w, grants, ans);
    } else if w.disk.status in {CONTINUE, WAITING} {
      AdvanceUnselected(w, grants, ans);
    } else {
      ClosedAdvance(w, grants, ans);
    }
  }

  /**
   * An exception escapes only for a proposal past the end of the plan, a slice the journal does not know, or a write
   * slice taken up again whose scope is no object with a list of roots.
   */
  lemma RaisesIff(w: World, grants: Grants, ans: Answers)
    ensures
      var st := w.disk;
      Advance(w, grants, ans).raised <==>
        || PastPlan(st, ans)
        || (Selected(st, grants, ans)
            && var s := st.plan[|st.completed|];
               || (st.bound.Some? && s.sliceId !in st.bound.value.journal)
               || (Sent(Taken(st), s, grants, ans) && ans.report.ResultFound? && Malformed(s)))
  {
    hide Advance, CallsOf, Sent, AcceptedRun, WithinRepeats, InsideParent, SameRequest, WriteAuthorized, Verdict;
    if Selected(w.disk, grants, ans) {
      var last, before := AdvanceSelected(w, grants, ans);
    } else if w.disk.status in {CONTINUE, WAITING} {
      AdvanceUnselected(w, grants, ans);
    } else {
      ClosedAdvance(w, grants, ans);
    }
  }

  /**
   * What an advance leaves if its process lives and nothing raises: a closed file as it is; without a slice to work on
   * the status of `Unselected`; otherwise the verdict on the slice, which is completed, waiting or blocked. Journal and
   * counters follow, and the reason written is one that holds.
   */
  lemma EndsAs(w: World, grants: Grants, ans: Answers)
    requires w.power >= 8 && !Advance(w, grants, ans).raised
    ensures
      var st, next := w.disk, Advance(w, grants, ans).world.disk;
      if st.status !in {CONTINUE, WAITING} then next == st
      else if !Selected(st, grants, ans) then
        && Halted(st, next, Unselected(st, ans)) && next.noProgress == st.noProgress && next.bound == st.bound
        && AdmissionGrounds(next.reason, st, grants, ans)
      else
        var s := st.plan[|st.completed|];
        && Verdict(Taken(st), s, grants, ans, next)
        && if Completes(Taken(st), s, grants, ans) then next.status == CONTINUE
        else if Awaits(Taken(st), s, grants, ans) then next.status == WAITING
        else next.status == BLOCKED && next.completed == st.completed && next.current == Some(s)
  {
    hide Advance, CallsOf, Sent, AcceptedRun, WithinRepeats, InsideParent, SameRequest, WriteAuthorized;
    if Selected(w.disk, grants, ans) {
      var last, before := AdvanceSelected(w, grants, ans);
    } else if w.disk.status in {CONTINUE, WAITING} {
      AdvanceUnselected(w, grants, ans);
    } else {
      ClosedAdvance(w, grants, ans);
    }
  }

  // ---- Creating --------------------------------------------------------------------------------

  /** A request a campaign can be created from, field by field. */
  ghost predicate Creatable(req: Request) {
    && !req.present && req.campaignId != "" && Strip(req.objective) != "" && req.backends != {} && req.tags != {}
    && 1 <= |req.plan| <= req.maxSlices <= 20 && 0 <= req.maxNoProgress <= 2
    && (req.capabilities == ReadOnly || req.capabilities == ReadWrite)
    && (req.capabilities == ReadOnly ==> req.targetId == "" && req.roots == [])
    && (req.capabilities == ReadWrite ==>
          req.targetId != "" && req.roots != [] && forall i :: 0 <= i < |req.roots| ==> IsScopePath(req.roots[i]))
    && (req.mission.Some? ==>
          && req.boundEnabled && !req.mission.value.carriesIdentity
          && (req.roots != [] ==> req.mission.value.targetId == req.targetId)
          && forall s :: s in req.plan && s.acceptance.Criterion? ==>
               s.acceptance.targetId == req.mission.value.targetId)
  }

  lemma CreatesIff(req: Request)
    ensures Create(req).Some? <==> Creatable(req)
    ensures Create(req).Some? ==>
      var st := Create(req).value;
      && st.authority == Envelope(req.backends, req.tags, req.capabilities, req.targetId, req.roots, req.maxSlices,
           req.maxNoProgress)
      && st.campaignId == req.campaignId && st.plan == req.plan && st.status == CONTINUE && st.current == None
      && st.completed == [] && st.fingerprints == [] && st.noProgress == 0
      && (st.bound.Some? <==> req.mission.Some?)
      && (req.mission.Some? ==>
            && st.bound.value.mission == req.mission.value
            && forall s :: s in req.plan ==>
                 && s.sliceId in st.bound.value.journal && st.bound.value.journal[s.sliceId].phase == NotDispatched
                 && st.bound.value.journal[s.sliceId].handoff == Derived(req.mission.value, req.campaignId, s.sliceId))
  {
    hide Strip, IsScopePath;
  }

  /**
   * Whatever happens, a campaign keeps the plan and the envelope it was created with, and they keep the limits: at
   * most 20 slices, at most 2 repeats, roots exactly for writing, and with a mission one target for all criteria.
   */
  lemma LimitsHold(grants: Grants, w: World)
    requires Reachable(grants, w)
    ensures 1 <= |w.disk.plan| <= w.disk.authority.maxSlices <= 20 && w.disk.authority.maxNoProgress <= 2
    ensures w.disk.authority.capabilities == ReadWrite <==> w.disk.authority.writeRoots != []
    ensures w.disk.bound.Some? ==> forall s :: s in w.disk.plan ==>
      && s.sliceId in w.disk.bound.value.journal
      && (s.acceptance.Criterion? ==> s.acceptance.targetId == w.disk.bound.value.mission.targetId)
  {
    hide Run, Create, Strip, IsScopePath, CampaignSteps.StateKept, CampaignSteps.CallsKept;
    var req, processes, power :| Create(req).Some? && w == Run(World(Create(req).value, [], power), grants, processes);
    CreatesIff(req);
    CreatedIsKept(grants, req, power);
    RunKeeps(grants, World(Create(req).value, [], power), processes);
  }
}
