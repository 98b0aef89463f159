/** The gate as an object: the state dictionary is updated in place and saved before each side effect. */
module CampaignFile {
  import opened Text
  import opened Campaign
  import opened CampaignSteps
  import opened CampaignRuns

  class CampaignGate {
    /** What a restart would load. */
    var disk: State
    /** The dictionary in memory. */
    var state: State
    /** The callbacks made so far, over all processes. */
    var calls: seq<Call>
    /** Effects this process still lives to perform. */
    var power: nat

    constructor (created: State, effects: nat)
      ensures View() == World(created, [], effects)
    {
      disk, state, calls, power := created, created, [], effects;
    }

    function View(): World
      reads this
    {
      World(disk, calls, power)
    }

    method SaveState()
      modifies this`disk, this`power
      ensures View() == Save(old(View()), state)
    {
      if power > 0 {
        disk, power := state, power - 1;
      }
    }

    method CallBack(call: Call)
      modifies this`calls, this`power
      ensures View() == Invoke(old(View()), call)
    {
      if power > 0 {
        calls, power := calls + [call], power - 1;
      }
    }

    method SaveStopped(status: Status, reason: Reason)
      modifies this
      ensures state == Stopped(old(state), status, reason) && View() == Save(old(View()), state)
    {
      state := state.(status := status, reason := reason);
      SaveState();
    }

    method SetEntry(id: string, e: Entry)
      requires Journaled(state, id)
      modifies this`state
      ensures state == WithEntry(old(state), id, e) && Journaled(state, id)
    {
      state := state.(bound := Some(state.bound.value.(journal := state.bound.value.journal[id := e])));
    }

    method PrepareHandoff(id: string, ans: Answers) returns (ok: bool)
      requires Journaled(state, id)
      modifies this
      ensures Stage(View(), state, ok) == PrepareStage(old(View()), old(state), id, ans)
      ensures Journaled(state, id)
    {
      if EntryOf(state, id).phase == NotDispatched {
        SetEntry(id, EntryOf(state, id).(phase := PrepareIntent));
        SaveState();
      }
      if EntryOf(state, id).phase == PrepareIntent {
        CallBack(Prepare(id));
        if ans.prepared != Some(EntryOf(state, id).handoff) || !ans.packetAfterPrepare {
          return false;
        }
        SetEntry(id, EntryOf(state, id).(phase := Prepared, preparedRef := ans.preparedPath));
        SaveState();
      }
      return true;
    }

    method DispatchHandoff(id: string, ans: Answers) returns (ok: bool)
      requires Journaled(state, id)
      modifies this
      ensures Stage(View(), state, ok) == DispatchStage(old(View()), old(state), id, ans)
    {
      var phase := EntryOf(state, id).phase;
      if phase in {Prepared, DispatchIntent, Accepted} && !ans.packetBeforeDispatch {
        return false;
      }
      if phase == Prepared {
        SetEntry(id, EntryOf(state, id).(phase := DispatchIntent));
        SaveState();
        CallBack(Dispatch(id));
        if ans.acceptedRef.None? || Strip(ans.acceptedRef.value) == "" {
          return false;
        }
        SetEntry(id, EntryOf(state, id).(phase := Accepted, acceptedRef := ans.acceptedRef.value));
        SaveState();
      } else if phase == DispatchIntent {
        if ans.reconciled.None? {
          return false;
        }
        SetEntry(id, EntryOf(state, id).(phase := Accepted, acceptedRef := ans.reconciled.value));
        SaveState();
      }
      return EntryOf(state, id).phase == Accepted;
    }

    method DispatchBound(s: Slice, grants: Grants, ans: Answers) returns (ok: bool)
      requires state.bound.Some?
      modifies this
      ensures Stage(View(), state, ok) == BoundDispatch(old(View()), old(state), s, grants, ans)
    {
      var id := s.sliceId;
      if !ans.boundCallbacks || id !in state.bound.value.journal {
        return false;
      }
      if EntryOf(state, id).handoff != Derived(state.bound.value.mission, state.campaignId, id) {
        return false;
      }
      if Rank(EntryOf(state, id).phase) < 3 && IsWrite(s)
        && CheckWriteApproval(state, s, grants, ans.activeAtDispatch).Some? {
        return false;
      }
      ok := PrepareHandoff(id, ans);
      if ok {
        ok := DispatchHandoff(id, ans);
      }
    }

    method JudgeResult(s: Slice, handoff: HandoffId, finished: bool, r: RunResult, writeBlock: Option<WriteBlock>,
        ans: Answers)
      modifies this`state
      ensures state == Judge(old(state), s, handoff, finished, r, writeBlock, ans) && state.bound == old(state.bound)
    {
      var verdict: Option<Reason> := None;
      if r.backend != s.backend || !r.fallbackUnused {
        verdict := Some(BackendMismatch);
      } else if !finished || !r.completed {
        verdict := Some(SliceIncomplete);
      } else if !ans.acceptancePass {
        verdict := Some(AcceptanceNotPass);
      } else if !MissionAcceptancePass(s, r) {
        verdict := Some(MissionAcceptanceNotPass);
      } else if writeBlock.Some? {
        verdict := Some(WriteBlocked(writeBlock.value));
      } else if ans.progress.None? || ans.progress.value.proof == "" || ans.progress.value.sha == "" {
        verdict := Some(ProgressMissing);
      } else if !ans.progress.value.intact {
        verdict := Some(ProgressInvalid);
      } else {
        var f := Fingerprint(ans.progress.value.proof, ans.progress.value.sha);
        if f in state.fingerprints {
          state := state.(noProgress := state.noProgress + 1);
        } else {
          state := state.(fingerprints := state.fingerprints + [f], noProgress := 0);
        }
        if state.noProgress > state.authority.maxNoProgress {
          verdict := Some(RepeatedNoProgress);
        } else {
          var remaining := |state.completed| + 1 < |state.plan|;
          var record := Completed(Overwritten(s), handoff, r.sessionId, if IsWrite(s) then ans.stored else None,
                                  if remaining then Continue else Finish);
          state := state.(completed := state.completed + [record]);
          state := state.(status := CONTINUE, reason := AcceptedProgress, current := None);
        }
      }
      if verdict.Some? {
        state := state.(status := BLOCKED, reason := verdict.value);
      }
    }

    method BlockHandoff(id: string) returns (raised: bool)
      modifies this
      ensures Turn(View(), raised) == Fail(old(View()), old(state), id)
    {
      if state.bound.Some? && id !in state.bound.value.journal {
        return true;
      }
      state := state.(status := BLOCKED, reason := HandoffUnavailable);
      if state.bound.Some? {
        var e := EntryOf(state, id);
        SetEntry(id, e.(decision := Some(if Rank(e.phase) < 3 then BlockedNoDispatch else BlockedUncertain)));
      }
      SaveState();
      return false;
    }

    method SettleResult(s: Slice, handoff: HandoffId, finished: bool, r: RunResult, ans: Answers) returns (raised: bool)
      modifies this
      ensures Turn(View(), raised) == Settle(old(View()), old(state), s, handoff, finished, r, ans)
    {
      hide Judge, CheckWriteResult;
      if IsWrite(s) && !(s.writeScope.WriteScope? && s.writeScope.roots.Some?) {
        return true;
      }
      if state.bound.Some? && s.sliceId !in state.bound.value.journal {
        return true;
      }
      var writeBlock := if IsWrite(s) then CheckWriteResult(s, r, handoff, ans) else None;
      JudgeResult(s, handoff, finished, r, writeBlock, ans);
      if state.bound.Some? {
        var decision :=
          if state.status == CONTINUE && state.completed != []
          then state.completed[|state.completed| - 1].decision else Block;
        SetEntry(s.sliceId,
          EntryOf(state, s.sliceId).(phase := Terminal, runId := r.sessionId, decision := Some(decision)));
      }
      SaveState();
      return false;
    }

    method ExecuteSlice(s: Slice, grants: Grants, ans: Answers) returns (raised: bool)
      modifies this
      ensures Turn(View(), raised) == Execute(old(View()), old(state), s, grants, ans)
    {
      var handoff, ok;
      if state.bound.Some? {
        handoff := Derived(state.bound.value.mission, state.campaignId, s.sliceId);
        ok := DispatchBound(s, grants, ans);
      } else {
        CallBack(Dispatch(s.sliceId));
        ok := ans.dispatched.Some?;
        handoff := Fresh(if ok then ans.dispatched.value else "");
      }
      if ok {
        match ans.report {
          case ResultFound(finished, r) =>
            raised := SettleResult(s, handoff, finished, r, ans);
            return;
          case ResultMissing(accepted) =>
            if state.bound.Some? && accepted {
              SaveStopped(WAITING, AwaitingResult);
              return false;
            }
          case _ =>
        }
      }
      raised := BlockHandoff(s.sliceId);
    }

    /** One locked advance: load, decide, save each intent before its effect, save the verdict. */
    method AdvanceCampaign(grants: Grants, ans: Answers) returns (raised: bool)
      modifies this
      ensures Turn(View(), raised) == Advance(old(View()), grants, ans)
      ensures old(Kept(grants, View())) ==> Kept(grants, View()) && Forward(old(View()), View())
    {
      hide Kept, Forward;
      if Kept(grants, View()) {
        AdvanceKeeps(grants, View(), ans);
      }
      state := disk;
      if IsTerminal(state.status) {
        return false;
      }
      if state.current.Some? {
        if state.bound.None? {
          SaveStopped(BLOCKED, UncertainInflight);
          return false;
        }
        if |state.completed| >= |state.plan| || state.current.value != state.plan[|state.completed|] {
          SaveStopped(BLOCKED, InflightDiffers);
          return false;
        }
        raised := ExecuteSlice(state.current.value, grants, ans);
        return;
      }
      if ans.proposal.None? {
        if state.completed != [] {
          SaveStopped(DONE, CompletionRecorded);
        } else {
          SaveStopped(BLOCKED, CompletionWithoutEvidence);
        }
        return false;
      }
      if |state.completed| >= state.authority.maxSlices {
        SaveStopped(BLOCKED, SliceBudgetExhausted);
        return false;
      }
      match Candidate(state, ans.proposal.value) {
        case IndexError => return true;
        case Refused(why) =>
          SaveStopped(ESCALATION_REQUIRED, SliceRefused(why));
          return false;
        case Admitted(s) =>
          var block := if IsWrite(s) then CheckWriteApproval(state, s, grants, ans.activeAtAdmission) else None;
          if block.Some? {
            SaveStopped(BLOCKED, WriteBlocked(block.value));
            return false;
          }
          state := state.(current := Some(s));
          SaveState();
          raised := ExecuteSlice(s, grants, ans);
      }
    }

    /**
     * `run_campaign`: advance until the campaign is closed, waits, or the process ends. It takes at most one
     * advance more than there are slices left.
     */
    method RunCampaign(grants: Grants, answers: nat -> Answers) returns (advances: nat, raised: bool)
      requires Kept(grants, View())
      modifies this
      ensures View() == After(old(View()), grants, answers, advances) && Kept(grants, View())
      ensures |old(disk).completed| <= |old(disk).plan| && advances <= |old(disk).plan| - |old(disk).completed| + 1
      ensures raised || power == 0 || IsTerminal(disk.status) || disk.status == WAITING
    {
      hide Kept, Advance, Forward, Create;
      advances := 0;
      NeverBeyondPlan(grants, View());
      while true
        invariant View() == After(old(View()), grants, answers, advances) && Kept(grants, View())
        invariant disk.plan == old(disk).plan && |disk.completed| == |old(disk).completed| + advances <= |disk.plan|
        decreases |disk.plan| - |disk.completed|
      {
        ghost var before := View();
        AdvanceKeeps(grants, before, answers(advances));
        raised := AdvanceCampaign(grants, answers(advances));
        advances := advances + 1;
        if raised || power == 0 || IsTerminal(disk.status) || disk.status == WAITING {
          return;
        }
        AfterKeeps(grants, old(View()), answers, advances);
        NeverBeyondPlan(grants, View());
      }
    }
  }
}
