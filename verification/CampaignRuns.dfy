/** Theorems over whole runs of the campaign gate, with crashes and restarts between any two effects. */
module CampaignRuns {
  import opened Text
  import opened Campaign
  import opened CampaignSteps

  // ---- Paths -----------------------------------------------------------------------------------

  lemma WithinTransitive(path: string, middle: string, root: string)
    requires Within(path, middle) && Within(middle, root)
    ensures Within(path, root)
  {
    if path != middle && middle != root {
      assert path[..|root| + 1] == middle[..|root| + 1];
    }
  }

  /** Two ancestors of one path are comparable. */
  lemma AncestorsComparable(path: string, a: string, b: string)
    requires Within(path, a) && Within(path, b)
    ensures Within(a, b) || Within(b, a)
  {
    if |a| == |b| {
      assert path[..|a|] == a && path[..|b|] == b;
    } else if |a| < |b| {
      assert path[..|b|] == b && path[..|a| + 1] == a + "/";
      assert b[..|a| + 1] == a + "/";
    } else {
      assert path[..|a|] == a && path[..|b| + 1] == b + "/";
      assert a[..|b| + 1] == b + "/";
    }
  }

  /** `Within` is being the same path or a descendant of it, segment by segment of the text. */
  lemma WithinMeansAncestor(path: string, root: string)
    ensures Within(path, root) <==> Split(root, '/') <= Split(path, '/')
  {
    JoinSplit(path, '/');
    JoinSplit(root, '/');
    if path != root && root + "/" <= path {
      var tail := path[|root| + 1..];
      assert path == root + ['/'] + tail;
      SplitConcat(root, tail);
    }
    if Split(root, '/') <= Split(path, '/') {
      JoinPrefix(Split(path, '/'), |Split(root, '/')|);
      assert Split(path, '/')[..|Split(root, '/')|] == Split(root, '/');
    }
  }

  lemma {:induction false} SplitConcat(a: string, b: string)
    ensures Split(a + ['/'] + b, '/') == Split(a, '/') + Split(b, '/')
    decreases |a|
  {
    var s := a + ['/'] + b;
    if a == "" {
      assert s[1..] == b;
    } else {
      assert s[0] == a[0] && s[1..] == a[1..] + ['/'] + b;
      SplitConcat(a[1..], b);
    }
  }

  lemma {:induction false} JoinPrefix(parts: seq<string>, n: nat)
    requires 1 <= n <= |parts|
    ensures Within(Join(parts, '/'), Join(parts[..n], '/'))
    decreases n
  {
    if n == |parts| {
      assert parts[..n] == parts;
    } else if n == 1 {
      assert Join(parts[..1], '/') == parts[0];
      assert Join(parts, '/') == parts[0] + "/" + Join(parts[1..], '/');
    } else {
      JoinPrefix(parts[1..], n - 1);
      assert parts[1..][..n - 1] == parts[..n][1..];
      var whole, part := Join(parts[1..], '/'), Join(parts[..n][1..], '/');
      assert Join(parts, '/') == parts[0] + "/" + whole && Join(parts[..n], '/') == parts[0] + "/" + part;
      if whole != part {
        assert (parts[0] + "/" + whole)[..|parts[0] + "/" + part| + 1] == parts[0] + "/" + (part + "/");
      }
    }
  }

  // ---- Judging a result ------------------------------------------------------------------------

  /** A verified mutation receipt keeps every changed path inside the envelope and out of what the approval denies. */
  lemma VerifiedWriteWithin(grants: Grants, authority: Envelope, s: Slice, r: RunResult, handoff: HandoffId,
      ans: Answers)
    requires Granted(grants, authority, s) && IsWrite(s)
    requires CheckWriteResult(s, r, handoff, ans).None?
    ensures WriteWithin(grants, authority, s, ans.stored)
  {
    hide IsScopePath, SameItems, Within;
    assert Granted(grants, authority, s);
    var denied, roots := grants.body(s.authorityRef.text).value.deniedRoots, s.writeScope.roots.value;
    var changed := ans.stored.value.changed;
    forall p | p in changed ensures UnderSome(p, roots) && PathWithin(p, authority.writeRoots, denied) {
      var i :| 0 <= i < |changed| && changed[i] == p;
      assert UnderSome(changed[i], roots);
      var k :| 0 <= k < |roots| && Within(p, roots[k]);
      var a :| 0 <= a < |authority.writeRoots| && Within(roots[k], authority.writeRoots[a]);
      WithinTransitive(p, roots[k], authority.writeRoots[a]);
      forall j | 0 <= j < |denied| ensures !Within(p, denied[j]) {
        if Within(p, denied[j]) {
          AncestorsComparable(p, roots[k], denied[j]);
        }
      }
    }
  }

  ghost predicate Judging(grants: Grants, st: State, s: Slice) {
    StateKept(grants, st) && st.current == Some(s) && !IsTerminal(st.status)
  }

  /** What a judged state keeps: only progress fields, the completed list and the current slice may have moved. */
  ghost predicate JudgedKept(grants: Grants, st: State, next: State) {
    && StateKept(grants, next) && Extends(st, next) && next.bound == st.bound
    && (next.status == BLOCKED || (next.status == CONTINUE && |next.completed| == |st.completed| + 1))
    && (forall id :: Spent(st, id) ==> Spent(next, id))
  }

  lemma AddCompletedKeeps(grants: Grants, st: State, s: Slice, handoff: HandoffId, r: RunResult,
      receipt: Option<Receipt>, f: Fingerprint)
    requires Judging(grants, st, s) && Objective(s) && WriteWithin(grants, st.authority, s, receipt)
    ensures JudgedKept(grants, st, AddCompleted(st, s, handoff, r, receipt, f))
  {
    hide Objective, WriteWithin, Granted, SliceId, Allowance;
    var next := AddCompleted(st, s, handoff, r, receipt, f);
    AllowanceNext(st.authority.maxNoProgress, |st.fingerprints|);
    forall i | 0 <= i < |next.completed| ensures Fulfils(grants, next, i) {
      assert i < |st.completed| ==> Fulfils(grants, st, i);
    }
    JournalUntouched(grants, st, next);
    SpentCarries(st, next);
  }

  lemma JournalUntouched(grants: Grants, st: State, next: State)
    requires JournalKept(st) && next.bound == st.bound && next.campaignId == st.campaignId && !IsTerminal(st.status)
    ensures JournalKept(next)
  {
    if st.bound.Some? {
      forall id | id in st.bound.value.journal ensures EntryKept(next, next.bound.value, id) {
        assert EntryKept(st, st.bound.value, id);
      }
    }
  }

  /** Completing the current slice keeps it among the spent ones. */
  lemma SpentCarries(st: State, next: State)
    requires next.bound == st.bound && next.campaignId == st.campaignId
    requires (if st.current.Some? then 1 else 0) + |st.completed| <= |next.completed|
      + (if next.current.Some? then 1 else 0)
    ensures forall id :: Spent(st, id) ==> Spent(next, id)
  {
  }

  lemma JudgeKeeps(grants: Grants, st: State, s: Slice, handoff: HandoffId, finished: bool, r: RunResult,
      block: Option<WriteBlock>, ans: Answers)
    requires Judging(grants, st, s)
    requires IsWrite(s) && block.None? ==> WriteWithin(grants, st.authority, s, ans.stored)
    ensures JudgedKept(grants, st, Judge(st, s, handoff, finished, r, block, ans))
  {
    hide Objective, WriteWithin, StateKept, Confirms, AddCompleted, JudgedKept, Extends, Stopped, Spent;
    var next := Judge(st, s, handoff, finished, r, block, ans);
    forall reason ensures JudgedKept(grants, st, Stopped(st, BLOCKED, reason)) {
      BlockedKept(grants, st, reason);
    }
    if MissionAcceptancePass(s, r) && block.None? && ans.progress.Some? {
      var receipt := if IsWrite(s) then ans.stored else None;
      ReadNeedsNoReceipt(grants, st.authority, s, receipt);
      AddCompletedKeeps(grants, st, s, handoff, r, receipt,
        Fingerprint(ans.progress.value.proof, ans.progress.value.sha));
    }
  }

  lemma BlockedKept(grants: Grants, st: State, reason: Reason)
    requires StateKept(grants, st) && !IsTerminal(st.status)
    ensures JudgedKept(grants, st, Stopped(st, BLOCKED, reason))
  {
    hide StateKept, Spent;
    StoppedKeeps(grants, st, BLOCKED, reason);
  }

  lemma ReadNeedsNoReceipt(grants: Grants, authority: Envelope, s: Slice, receipt: Option<Receipt>)
    requires IsWrite(s) ==> WriteWithin(grants, authority, s, receipt)
    ensures WriteWithin(grants, authority, s, receipt)
  {
  }

  /** Closing the journal entry with a decision that is never "no dispatch". */
  lemma EntryClosed(grants: Grants, st: State, next: State, id: string, e: Entry)
    requires JudgedKept(grants, st, next) && Journaled(next, id)
    requires e.handoff == EntryOf(next, id).handoff && Rank(EntryOf(next, id).phase) <= Rank(e.phase)
    requires e.decision == Some(BlockedNoDispatch) ==> Rank(e.phase) < 3 && next.status == BLOCKED
    ensures
      var closed := WithEntry(next, id, e);
      && StateKept(grants, closed) && Extends(st, closed)
      && (forall k :: Spent(st, k) ==> Spent(closed, k))
  {
    hide Objective, WriteWithin, Granted, SliceId, Allowance;
    var closed := WithEntry(next, id, e);
    forall i | 0 <= i < |next.completed| ensures Fulfils(grants, closed, i) {
      assert Fulfils(grants, next, i);
    }
    assert EntryKept(next, next.bound.value, id);
  }

  lemma CloseKeeps(grants: Grants, st: State, next: State, id: string, r: RunResult)
    requires JudgedKept(grants, st, next) && (next.bound.Some? ==> Journaled(next, id))
    ensures
      var closed := Close(next, id, r);
      StateKept(grants, closed) && Extends(st, closed) && forall k :: Spent(st, k) ==> Spent(closed, k)
    ensures Close(next, id, r).status == next.status && Close(next, id, r).completed == next.completed
  {
    hide Objective, WriteWithin, Granted, SliceId, Allowance, Spent;
    if next.bound.Some? {
      if next.completed != [] {
        assert Fulfils(grants, next, |next.completed| - 1);
      }
      EntryClosed(grants, st, next, id, EntryOf(Close(next, id, r), id));
    }
  }

  // ---- One advance -----------------------------------------------------------------------------

  /** The result of a stage that ends the advance. */
  ghost predicate TurnKept(grants: Grants, w: World, t: Turn) {
    Kept(grants, t.world) && Forward(w, t.world)
  }

  /** A turn that goes on completed one slice more. */
  ghost predicate Productive(st: State, t: Turn) {
    t.world.power > 0 && !t.raised && !IsTerminal(t.world.disk.status) && t.world.disk.status != WAITING ==>
      |t.world.disk.completed| == |st.completed| + 1
  }

  lemma SaveFinal(grants: Grants, w: World, st: State, next: State)
    requires Kept(grants, w) && Live(w, st) && !IsTerminal(st.status) && StateKept(grants, next) && Extends(st, next)
    requires forall id :: Spent(st, id) ==> Spent(next, id)
    ensures TurnKept(grants, w, Turn(Save(w, next), false))
  {
    hide StateKept, Extends, Spent;
    SaveKeeps(grants, w, next);
  }

  lemma FailKeeps(grants: Grants, w: World, st: State, id: string)
    requires Kept(grants, w) && Live(w, st) && StateKept(grants, st) && !IsTerminal(st.status)
    ensures TurnKept(grants, w, Fail(w, st, id)) && Productive(st, Fail(w, st, id))
  {
    hide StateKept, Extends, Spent, Kept, Forward, Live;
    ForwardRefl(w);
    if st.bound.None? || Journaled(st, id) {
      var blocked := Stopped(st, BLOCKED, HandoffUnavailable);
      BlockedKept(grants, st, HandoffUnavailable);
      if st.bound.Some? {
        var e := EntryOf(st, id);
        EntryClosed(grants, st, blocked, id,
          e.(decision := Some(if Rank(e.phase) < 3 then BlockedNoDispatch else BlockedUncertain)));
      }
      SaveFinal(grants, w, st, FailState(st, id));
      SavedOrDead(w, FailState(st, id));
    }
  }

  lemma SavedOrDead(w: World, st: State)
    ensures Save(w, st).power > 0 ==> Save(w, st).disk == st
  {
  }

  lemma SettleKeeps(grants: Grants, w: World, st: State, s: Slice, handoff: HandoffId, finished: bool, r: RunResult,
      ans: Answers)
    requires Kept(grants, w) && Live(w, st) && Judging(grants, st, s)
    ensures TurnKept(grants, w, Settle(w, st, s, handoff, finished, r, ans))
    ensures Productive(st, Settle(w, st, s, handoff, finished, r, ans))
  {
    hide StateKept, Extends, Spent, Kept, Forward, Live, Judge, CheckWriteResult, WriteWithin, Close;
    ForwardRefl(w);
    if (!IsWrite(s) || (s.writeScope.WriteScope? && s.writeScope.roots.Some?))
      && (st.bound.Some? ==> Journaled(st, s.sliceId)) {
      var block := if IsWrite(s) then CheckWriteResult(s, r, handoff, ans) else None;
      CurrentGranted(grants, st, s);
      if IsWrite(s) && block.None? {
        VerifiedWriteWithin(grants, st.authority, s, r, handoff, ans);
      }
      var judged := Judge(st, s, handoff, finished, r, block, ans);
      JudgeKeeps(grants, st, s, handoff, finished, r, block, ans);
      CloseKeeps(grants, st, judged, s.sliceId, r);
      SaveFinal(grants, w, st, Close(judged, s.sliceId, r));
      SavedOrDead(w, Close(judged, s.sliceId, r));
    }
  }

  lemma CurrentGranted(grants: Grants, st: State, s: Slice)
    requires StateKept(grants, st) && st.current == Some(s)
    ensures Granted(grants, st.authority, s) && s.sliceId == SliceId(st.campaignId, |st.completed| + 1)
  {
    hide Objective, WriteWithin, SliceId, Allowance, Granted;
  }

  /** `before` is the world in which the slice was chosen, `w` the one in which it is current on disk. */
  ghost predicate Chosen(grants: Grants, before: World, w: World, st: State, s: Slice) {
    && Kept(grants, before) && Kept(grants, w) && Forward(before, w) && w.calls == before.calls
    && Live(w, st) && Judging(grants, st, s)
    && (forall id :: Spent(before.disk, id) ==> Spent(w.disk, id))
    && (st.bound.None? && w.power > 0 ==> !Spent(before.disk, s.sliceId) && Spent(w.disk, s.sliceId))
  }

  /** The stage in which the slice is dispatched, bound or not. */
  function Dispatching(w: World, st: State, s: Slice, grants: Grants, ans: Answers): Stage {
    if st.bound.Some? then BoundDispatch(w, st, s, grants, ans)
    else Stage(Invoke(w, Dispatch(s.sliceId)), st, ans.dispatched.Some?)
  }

  ghost predicate DispatchedKept(grants: Grants, before: World, st: State, s: Slice, r: Stage) {
    && Kept(grants, r.world) && Forward(before, r.world) && Live(r.world, r.state) && Judging(grants, r.state, s)
    && |r.state.completed| == |st.completed| && (st.bound.Some? <==> r.state.bound.Some?)
    && (forall id :: Spent(before.disk, id) ==> Spent(r.world.disk, id))
  }

  lemma DispatchingKeeps(grants: Grants, before: World, w: World, st: State, s: Slice, ans: Answers)
    requires Chosen(grants, before, w, st, s)
    ensures DispatchedKept(grants, before, st, s, Dispatching(w, st, s, grants, ans))
  {
    hide StateKept, Kept, Forward, BoundDispatch, Spent, EntryMoved;
    if st.bound.None? {
      UnboundDispatch(grants, before, w, st, s);
    } else if Journaled(st, s.sliceId) {
      BoundDispatchKeeps(grants, w, st, s, ans);
      var r := BoundDispatch(w, st, s, grants, ans);
      MovedFields(st, r.state, s.sliceId);
      ForwardTransitive(before, w, r.world);
    } else {
      Unjournaled(w, st, s, grants, ans);
    }
  }

  lemma Unjournaled(w: World, st: State, s: Slice, grants: Grants, ans: Answers)
    requires st.bound.Some? && !Journaled(st, s.sliceId)
    ensures BoundDispatch(w, st, s, grants, ans) == Stage(w, st, false)
  {
  }

  lemma MovedFields(st: State, next: State, id: string)
    requires EntryMoved(st, next, id)
    ensures next.current == st.current && next.completed == st.completed && next.bound.Some? && next.status == st.status
  {
  }

  lemma UnboundDispatch(grants: Grants, before: World, w: World, st: State, s: Slice)
    requires Chosen(grants, before, w, st, s) && st.bound.None?
    ensures
      var next := Invoke(w, Dispatch(s.sliceId));
      && Kept(grants, next) && Forward(before, next) && Live(next, st)
      && (forall id :: Spent(before.disk, id) ==> Spent(next.disk, id))
  {
    hide StateKept, Kept, Forward, Spent;
    DispatchCallKeeps(grants, before, w, s.sliceId);
  }

  lemma ExecuteKeeps(grants: Grants, before: World, w: World, st: State, s: Slice, ans: Answers)
    requires Chosen(grants, before, w, st, s)
    ensures TurnKept(grants, before, Execute(w, st, s, grants, ans)) && Productive(st, Execute(w, st, s, grants, ans))
  {
    hide StateKept, Kept, Forward, BoundDispatch, Spent, Settle, Fail, Chosen, Live, Productive, Save;
    DispatchingKeeps(grants, before, w, st, s, ans);
    var r := Dispatching(w, st, s, grants, ans);
    FailKeeps(grants, r.world, r.state, s.sliceId);
    Ends(grants, before, r.world, Fail(r.world, r.state, s.sliceId));
    SameProductive(st, r.state, Fail(r.world, r.state, s.sliceId));
    var handoff := if st.bound.Some? then Derived(st.bound.value.mission, st.campaignId, s.sliceId)
                   else Fresh(if ans.dispatched.Some? then ans.dispatched.value else "");
    match ans.report {
      case ResultFound(finished, result) =>
        SettleKeeps(grants, r.world, r.state, s, handoff, finished, result, ans);
        var t := Settle(r.world, r.state, s, handoff, finished, result, ans);
        Ends(grants, before, r.world, t);
        SameProductive(st, r.state, t);
      case ResultMissing(accepted) =>
        var waiting := Stopped(r.state, WAITING, AwaitingResult);
        var t := Turn(Save(r.world, waiting), false);
        SaveStoppedKeeps(grants, r.world, r.state, WAITING, AwaitingResult);
        Ends(grants, before, r.world, t);
        WaitingProductive(st, r.world, waiting);
      case _ =>
    }
  }

  lemma Ends(grants: Grants, before: World, w: World, t: Turn)
    requires Forward(before, w) && TurnKept(grants, w, t)
    requires forall id :: Spent(before.disk, id) ==> Spent(w.disk, id)
    ensures TurnKept(grants, before, t)
  {
    hide Kept, Spent, Forward;
    ForwardTransitive(before, w, t.world);
  }

  lemma SameProductive(a: State, b: State, t: Turn)
    requires |a.completed| == |b.completed| && Productive(b, t)
    ensures Productive(a, t)
  {
  }

  lemma WaitingProductive(st: State, w: World, waiting: State)
    requires waiting.status == WAITING
    ensures Productive(st, Turn(Save(w, waiting), false))
  {
  }

  // ---- Admission -------------------------------------------------------------------------------

  lemma SliceIdInjective(campaignId: string, m: nat, n: nat)
    requires SliceId(campaignId, m) == SliceId(campaignId, n)
    ensures m == n
  {
    var prefix := campaignId + "-slice-";
    assert SliceId(campaignId, m)[|prefix|..] == Digits(m);
    assert SliceId(campaignId, n)[|prefix|..] == Digits(n);
    DigitsInjective(m, n);
  }

  /** A slice admitted from an idle unbound campaign has never been dispatched. */
  lemma NextIsUnspent(st: State)
    requires st.bound.None? && st.current.None?
    ensures !Spent(st, SliceId(st.campaignId, |st.completed| + 1))
  {
    hide SliceId;
    if Spent(st, SliceId(st.campaignId, |st.completed| + 1)) {
      var n :| 1 <= n <= |st.completed| && SliceId(st.campaignId, |st.completed| + 1) == SliceId(st.campaignId, n);
      SliceIdInjective(st.campaignId, |st.completed| + 1, n);
    }
  }

  lemma AdmittedKeeps(grants: Grants, st: State, p: Slice, s: Slice, active: bool)
    requires StateKept(grants, st) && !IsTerminal(st.status) && st.current.None? && Candidate(st, p) == Admitted(s)
    requires IsWrite(s) ==> CheckWriteApproval(st, s, grants, active).None?
    ensures
      var next := st.(current := Some(s));
      && StateKept(grants, next) && Extends(st, next) && s.sliceId == SliceId(st.campaignId, |st.completed| + 1)
      && (forall id :: Spent(st, id) ==> Spent(next, id))
  {
    hide Objective, WriteWithin, SliceId, Allowance, Truthy, CarriesAuthority, Strip, InsideGrant, InsideEnvelope;
    var next := st.(current := Some(s));
    forall i | 0 <= i < |next.completed| ensures Fulfils(grants, next, i) {
      assert Fulfils(grants, st, i);
    }
    JournalUntouched(grants, st, next);
    SpentCarries(st, next);
  }

  lemma ChosenAfterAdmission(grants: Grants, w: World, st: State, s: Slice)
    requires Kept(grants, w) && w.disk == st && st.current.None? && !IsTerminal(st.status)
    requires StateKept(grants, st.(current := Some(s))) && Extends(st, st.(current := Some(s)))
    requires s.sliceId == SliceId(st.campaignId, |st.completed| + 1)
    requires forall id :: Spent(st, id) ==> Spent(st.(current := Some(s)), id)
    ensures Chosen(grants, w, Save(w, st.(current := Some(s))), st.(current := Some(s)), s)
  {
    hide StateKept, SliceId;
    var next := st.(current := Some(s));
    SaveFinal(grants, w, st, next);
    if st.bound.None? {
      NextIsUnspent(st);
      assert Spent(next, s.sliceId) by {
        assert s.sliceId == SliceId(next.campaignId, |st.completed| + 1);
      }
    }
  }

  lemma StopsTurn(grants: Grants, w: World, status: Status, reason: Reason)
    requires Kept(grants, w) && !IsTerminal(w.disk.status) && IsTerminal(status)
    ensures
      var t := Turn(Save(w, Stopped(w.disk, status, reason)), false);
      TurnKept(grants, w, t) && Productive(w.disk, t)
  {
    hide StateKept, Spent;
    SaveStoppedKeeps(grants, w, w.disk, status, reason);
  }

  lemma AdmitKeeps(grants: Grants, w: World, ans: Answers)
    requires Kept(grants, w) && !IsTerminal(w.disk.status) && w.disk.current.None?
    ensures TurnKept(grants, w, Admit(w, w.disk, grants, ans)) && Productive(w.disk, Admit(w, w.disk, grants, ans))
  {
    hide StateKept, CallsKept, Spent, Forward, Execute, Candidate, CheckWriteApproval, Save, Extends, Stopped;
    var st := w.disk;
    ForwardRefl(w);
    forall status, reason | IsTerminal(status)
      ensures TurnKept(grants, w, Turn(Save(w, Stopped(st, status, reason)), false))
      ensures Productive(st, Turn(Save(w, Stopped(st, status, reason)), false))
    {
      StopsTurn(grants, w, status, reason);
    }
    if ans.proposal.Some? && Candidate(st, ans.proposal.value).Admitted? {
      var s := Candidate(st, ans.proposal.value).slice;
      if !IsWrite(s) || CheckWriteApproval(st, s, grants, ans.activeAtAdmission).None? {
        AdmittedKeeps(grants, st, ans.proposal.value, s, ans.activeAtAdmission);
        ChosenAfterAdmission(grants, w, st, s);
        var st1 := st.(current := Some(s));
        ExecuteKeeps(grants, w, Save(w, st1), st1, s, ans);
        SameProductive(st, st1, Execute(Save(w, st1), st1, s, grants, ans));
      }
    }
  }

  /**
   * One advance, crashed anywhere: the invariant holds, the file moves only forward, no spent slice is
   * dispatched, and an advance that ends with the campaign still open has completed exactly one slice.
   */
  lemma AdvanceKeeps(grants: Grants, w: World, ans: Answers)
    requires Kept(grants, w)
    ensures TurnKept(grants, w, Advance(w, grants, ans)) && Productive(w.disk, Advance(w, grants, ans))
  {
    hide StateKept, CallsKept, Forward, Execute, Admit, Stopped;
    var st := w.disk;
    ForwardRefl(w);
    if !IsTerminal(st.status) {
      if st.current.None? {
        AdmitKeeps(grants, w, ans);
      } else {
        StopsTurn(grants, w, BLOCKED, UncertainInflight);
        StopsTurn(grants, w, BLOCKED, InflightDiffers);
        if st.bound.Some? {
          assert Chosen(grants, w, w, st, st.current.value);
          ExecuteKeeps(grants, w, w, st, st.current.value, ans);
        }
      }
    }
  }

  // ---- Runs ------------------------------------------------------------------------------------

  /** One process: how many effects it lives to perform, and what it is answered. */
  datatype Process = Process(power: nat, answers: Answers)

  /** Any number of processes one after the other, each of which may crash. */
  function Run(w: World, grants: Grants, processes: seq<Process>): World
    decreases |processes|
  {
    if processes == [] then w
    else
      var p := processes[0];
      Run(Advance(w.(power := p.power), grants, p.answers).world, grants, processes[1..])
  }

  lemma PowerIsFree(grants: Grants, w: World, power: nat)
    requires Kept(grants, w)
    ensures Kept(grants, w.(power := power))
  {
  }

  lemma CreatedIsKept(grants: Grants, req: Request, power: nat)
    requires Create(req).Some?
    ensures Kept(grants, World(Create(req).value, [], power))
  {
    hide Strip, IsScopePath;
  }

  lemma {:induction false} RunKeeps(grants: Grants, w: World, processes: seq<Process>)
    requires Kept(grants, w)
    ensures Kept(grants, Run(w, grants, processes)) && Later(w.disk, Run(w, grants, processes).disk)
    ensures w.calls <= Run(w, grants, processes).calls
    decreases |processes|
  {
    hide Kept, Advance, Extends;
    if processes == [] {
      ForwardRefl(w);
    } else {
      var w0 := w.(power := processes[0].power);
      var w1 := Advance(w0, grants, processes[0].answers).world;
      PowerIsFree(grants, w, processes[0].power);
      AdvanceKeeps(grants, w0, processes[0].answers);
      RunKeeps(grants, w1, processes[1..]);
      LaterTransitive(w.disk, w1.disk, Run(w1, grants, processes[1..]).disk);
    }
  }

  ghost predicate Reachable(grants: Grants, w: World) {
    exists req, processes, power ::
      Create(req).Some? && w == Run(World(Create(req).value, [], power), grants, processes)
  }

  lemma ReachableIsKept(grants: Grants, w: World)
    requires Reachable(grants, w)
    ensures Kept(grants, w)
  {
    hide Kept, Run, Create;
    var req, processes, power :| Create(req).Some? && w == Run(World(Create(req).value, [], power), grants, processes);
    CreatedIsKept(grants, req, power);
    RunKeeps(grants, World(Create(req).value, [], power), processes);
  }

  // ---- Theorems --------------------------------------------------------------------------------

  /** Over all processes and crashes each slice is dispatched at most once, bound or not. */
  lemma DispatchedAtMostOnce(grants: Grants, w: World, i: nat, j: nat)
    requires Reachable(grants, w) && i < j < |w.calls| && w.calls[i].Dispatch? && w.calls[j].Dispatch?
    ensures w.calls[i].sliceId != w.calls[j].sliceId
  {
    hide StateKept, Spent;
    ReachableIsKept(grants, w);
    assert w.calls[j] != w.calls[i];
  }

  /** The journal never moves backwards and never changes whose dispatch it records. */
  lemma JournalOnlyForward(grants: Grants, w: World, processes: seq<Process>, id: string)
    requires Reachable(grants, w) && Journaled(w.disk, id)
    ensures
      var next := Run(w, grants, processes).disk;
      && Journaled(next, id) && Rank(EntryOf(w.disk, id).phase) <= Rank(EntryOf(next, id).phase)
      && EntryOf(next, id).handoff == EntryOf(w.disk, id).handoff
      && EntryOf(next, id).handoff == Derived(next.bound.value.mission, next.campaignId, id)
  {
    hide Run, CallsKept, PlanKept, CurrentKept, ProgressKept;
    ReachableIsKept(grants, w);
    RunKeeps(grants, w, processes);
    assert EntryKept(w.disk, w.disk.bound.value, id);
  }

  /** A saved dispatch intent is never replayed: whatever happens next, that slice is not dispatched again. */
  lemma {:induction false} IntentNeverReplayed(grants: Grants, w: World, processes: seq<Process>, id: string)
    requires Kept(grants, w) && Journaled(w.disk, id) && Rank(EntryOf(w.disk, id).phase) >= Rank(DispatchIntent)
    ensures w.calls <= Run(w, grants, processes).calls
    ensures Dispatch(id) !in Run(w, grants, processes).calls[|w.calls|..]
    decreases |processes|
  {
    hide Kept, Advance, Productive;
    if processes != [] {
      var w0 := w.(power := processes[0].power);
      var w1 := Advance(w0, grants, processes[0].answers).world;
      PowerIsFree(grants, w, processes[0].power);
      AdvanceKeeps(grants, w0, processes[0].answers);
      RunKeeps(grants, w1, processes[1..]);
      IntentNeverReplayed(grants, w1, processes[1..], id);
      var last := Run(w1, grants, processes[1..]).calls;
      forall k | |w.calls| <= k < |last| ensures last[k] != Dispatch(id) {
        if k < |w1.calls| {
          assert last[k] == w1.calls[k];
        } else {
          assert last[k] in last[|w1.calls|..];
        }
      }
    }
  }

  /** The decision "blocked, no dispatch" is true: that slice was never dispatched and never will be. */
  lemma NoDispatchMeansNone(grants: Grants, w: World, processes: seq<Process>, id: string)
    requires Reachable(grants, w) && Journaled(w.disk, id) && EntryOf(w.disk, id).decision == Some(BlockedNoDispatch)
    ensures Dispatch(id) !in Run(w, grants, processes).calls && Run(w, grants, processes).disk == w.disk
  {
    hide Run, PlanKept, CurrentKept, ProgressKept;
    ReachableIsKept(grants, w);
    assert EntryKept(w.disk, w.disk.bound.value, id);
    assert Dispatch(id) !in w.calls;
    ClosedStays(grants, w, processes);
  }

  /** A terminal campaign is never touched again. */
  lemma {:induction false} ClosedStays(grants: Grants, w: World, processes: seq<Process>)
    requires IsTerminal(w.disk.status)
    ensures Run(w, grants, processes).disk == w.disk && Run(w, grants, processes).calls == w.calls
    decreases |processes|
  {
    hide Admit, Execute;
    if processes != [] {
      ClosedStays(grants, w.(power := processes[0].power), processes[1..]);
    }
  }

  /**
   * The completed slices are, in order, the first slices of the plan, each with an objective criterion of
   * its own (overwritten once met), and only the record of the last slice says that the campaign is finished.
   */
  lemma CompletedIsPlanPrefix(grants: Grants, w: World)
    requires Reachable(grants, w)
    ensures |w.disk.completed| <= |w.disk.plan|
    ensures forall i :: 0 <= i < |w.disk.completed| ==>
      && w.disk.completed[i].slice.(acceptance := w.disk.plan[i].acceptance) == w.disk.plan[i]
      && Objective(w.disk.plan[i])
      && (w.disk.completed[i].decision == Finish <==> i + 1 == |w.disk.plan|)
      && (w.disk.completed[i].decision == Continue <==> i + 1 < |w.disk.plan|)
  {
    hide Objective, WriteWithin, SliceId, CallsKept, CurrentKept, ProgressKept, JournalKept;
    ReachableIsKept(grants, w);
    forall i | 0 <= i < |w.disk.completed|
      ensures Fulfils(grants, w.disk, i)
      ensures Overwritten(w.disk.plan[i]).(acceptance := w.disk.plan[i].acceptance) == w.disk.plan[i]
    {
    }
  }

  /** Repeats stay within the budget, and slices without new evidence with them. */
  lemma ProgressBudget(grants: Grants, w: World)
    requires Reachable(grants, w)
    ensures |w.disk.completed| <= (w.disk.authority.maxNoProgress + 1) * |w.disk.fingerprints|
    ensures w.disk.status != BLOCKED ==> w.disk.noProgress <= w.disk.authority.maxNoProgress
  {
    hide CallsKept, PlanKept, CurrentKept, JournalKept;
    ReachableIsKept(grants, w);
  }

  /**
   * Every changed path of every completed write slice lies under a root of the envelope and under none its approval
   * denies.
   */
  lemma WritesStayAuthorized(grants: Grants, w: World, i: nat, path: string)
    requires Reachable(grants, w) && i < |w.disk.completed| && IsWrite(w.disk.completed[i].slice)
    requires w.disk.completed[i].receipt.Some? && path in w.disk.completed[i].receipt.value.changed
    ensures
      var s := w.disk.completed[i].slice;
      && s.authorityRef.Ref? && grants.body(s.authorityRef.text).Some?
      && UnderSome(path, w.disk.authority.writeRoots)
      && forall j :: 0 <= j < |grants.body(s.authorityRef.text).value.deniedRoots| ==>
           !Within(path, grants.body(s.authorityRef.text).value.deniedRoots[j])
  {
    hide Objective, SliceId, CallsKept, CurrentKept, ProgressKept, JournalKept, Within;
    ReachableIsKept(grants, w);
    assert Fulfils(grants, w.disk, i);
    assert PathWithin(path, w.disk.authority.writeRoots,
      grants.body(w.disk.plan[i].authorityRef.text).value.deniedRoots);
  }

  /** The workspace itself, printed as a dot, is never among the changed paths of a completed write slice. */
  lemma KeyIsNoDot(grants: Grants, w: World, i: nat, path: string)
    requires Reachable(grants, w) && i < |w.disk.completed| && IsWrite(w.disk.completed[i].slice)
    requires w.disk.completed[i].receipt.Some? && path in w.disk.completed[i].receipt.value.changed
    ensures path != "."
  {
    hide Objective, SliceId, CallsKept, CurrentKept, ProgressKept, JournalKept, IsScopePath, PathWithin;
    ReachableIsKept(grants, w);
    assert Fulfils(grants, w.disk, i);
    var roots := w.disk.plan[i].writeScope.roots.value;
    assert UnderSome(path, roots);
    var k :| 0 <= k < |roots| && Within(path, roots[k]);
    DotIsNoScopePath();
    assert roots[k] != "." && roots[k] != "" by { NonEmpty(roots[k]); }
  }

  lemma NonEmpty(s: string)
    requires IsScopePath(s)
    ensures s != ""
  {
  }

  lemma DotIsNoScopePath()
    ensures !IsScopePath(".")
  {
    SplitWhole(".", '/');
    assert "." in Split(".", '/');
  }

  /** A completed write slice always carries its verified receipt. */
  lemma WritesHaveReceipts(grants: Grants, w: World, i: nat)
    requires Reachable(grants, w) && i < |w.disk.completed| && IsWrite(w.disk.completed[i].slice)
    ensures w.disk.completed[i].receipt.Some?
  {
    hide Objective, SliceId, CallsKept, CurrentKept, ProgressKept, JournalKept, Within, PathWithin;
    ReachableIsKept(grants, w);
    assert Fulfils(grants, w.disk, i);
  }

  lemma NoEmptyPart(d: string, tail: string)
    requires IsScopePath(d + "/" + tail)
    ensures tail != "" && tail[0] != '/'
  {
    assert d + "/" + tail == d + ['/'] + tail;
    SplitConcat(d, tail);
    var parts := Split(d + "/" + tail, '/');
    assert parts[|Split(d, '/')|] == Split(tail, '/')[0] && parts[|Split(d, '/')|] in parts;
    assert Split(tail, '/')[0] != "";
  }

  lemma NothingBelowSlash(root: string, d: string)
    requires IsScopePath(root)
    ensures !Within(root, d + "/") && root != d + "/"
  {
    if Within(root, d + "/") {
      var tail := root[|d| + 1..];
      assert root == d + "/" + tail;
      assert tail == "" || tail[0] == (d + "/" + "/")[|d| + 1];
      NoEmptyPart(d, tail);
    }
  }

  /**
   * A denied root written with a trailing slash is compared as text: the overlap is noticed exactly when
   * the denied directory lies at or below the requested root, and missed when the root lies inside it.
   */
  lemma TrailingSlashDenial(root: string, d: string)
    requires IsScopePath(root) && IsScopePath(d)
    ensures Within(root, d + "/") || Within(d + "/", root) <==> Within(d, root)
  {
    NothingBelowSlash(root, d);
    if Within(d + "/", root) {
      assert root + "/" <= d + "/";
      assert |root| < |d| ==> (d + "/")[..|root| + 1] == d[..|root| + 1];
      assert |root| == |d| ==> (d + "/")[..|d|] == d;
    }
    if Within(d, root) && d != root {
      assert (d + "/")[..|root| + 1] == d[..|root| + 1];
    }
  }

  /**
   * What a denial with a trailing slash leaves open: once the overlap check has let a root pass, the paths below
   * that root lie in the denied directory exactly when the root itself does.
   */
  lemma PassedDenialIff(p: string, root: string, d: string)
    requires IsScopePath(root) && IsScopePath(d) && Within(p, root)
    requires !Within(root, d + "/") && !Within(d + "/", root)
    ensures Within(p, d) <==> Within(root, d)
  {
    TrailingSlashDenial(root, d);
    if Within(p, d) {
      AncestorsComparable(p, root, d);
    }
    if Within(root, d) {
      WithinTransitive(p, root, d);
    }
  }

  /** Every root the approval of a completed write slice allows is within a write root of the campaign. */
  lemma AllowedRootsInside(grants: Grants, w: World, i: nat)
    requires Reachable(grants, w) && i < |w.disk.completed| && IsWrite(w.disk.completed[i].slice)
    ensures
      var s := w.disk.completed[i].slice;
      && s.authorityRef.Ref? && grants.body(s.authorityRef.text).Some?
      && forall r :: r in grants.body(s.authorityRef.text).value.allowedRoots ==>
           UnderSome(r, w.disk.authority.writeRoots)
  {
    hide Objective, SliceId, CallsKept, CurrentKept, ProgressKept, JournalKept, Within, IsScopePath, PathWithin;
    ReachableIsKept(grants, w);
    assert Fulfils(grants, w.disk, i);
    var s := w.disk.plan[i];
    var g, roots := grants.body(s.authorityRef.text).value, s.writeScope.roots.value;
    forall r | r in g.allowedRoots ensures UnderSome(r, w.disk.authority.writeRoots) {
      assert r in multiset(g.allowedRoots) && multiset(g.allowedRoots) == multiset(roots);
      var k :| 0 <= k < |roots| && roots[k] == r;
    }
  }

  /** A root the slice asked for that lies in the directory `d` and has `p` below it. */
  ghost predicate ReachesInto(s: Slice, p: string, d: string)
    requires s.writeScope.WriteScope? && s.writeScope.roots.Some?
  {
    exists k :: 0 <= k < |s.writeScope.roots.value|
      && Within(p, s.writeScope.roots.value[k]) && Within(s.writeScope.roots.value[k], d)
  }

  /**
   * The whole meaning of a denied directory for completed slices. Written plainly it holds no changed path; written
   * with a trailing slash, the normal form of a directory, it holds exactly those below a requested root inside it.
   */
  lemma DeniedDirectory(grants: Grants, w: World, i: nat, path: string, d: string)
    requires Reachable(grants, w) && i < |w.disk.completed| && IsWrite(w.disk.completed[i].slice)
    requires w.disk.completed[i].receipt.Some? && path in w.disk.completed[i].receipt.value.changed && IsScopePath(d)
    ensures
      var s := w.disk.completed[i].slice;
      && s.authorityRef.Ref? && grants.body(s.authorityRef.text).Some?
      && s.writeScope.WriteScope? && s.writeScope.roots.Some?
      && (d in grants.body(s.authorityRef.text).value.deniedRoots ==> !Within(path, d))
      && (d + "/" in grants.body(s.authorityRef.text).value.deniedRoots ==>
           (Within(path, d) <==> ReachesInto(s, path, d)))
  {
    hide Objective, SliceId, CallsKept, CurrentKept, ProgressKept, JournalKept, Within, IsScopePath;
    ReachableIsKept(grants, w);
    assert Fulfils(grants, w.disk, i);
    var s := w.disk.plan[i];
    var g, roots := grants.body(s.authorityRef.text).value, s.writeScope.roots.value;
    assert UnderSome(path, roots) && PathWithin(path, w.disk.authority.writeRoots, g.deniedRoots);
    if d + "/" in g.deniedRoots {
      var j :| 0 <= j < |g.deniedRoots| && g.deniedRoots[j] == d + "/";
      DeniedWithSlash(path, roots, d);
    }
  }

  lemma DeniedWithSlash(path: string, roots: seq<string>, d: string)
    requires IsScopePath(d) && UnderSome(path, roots)
    requires forall k :: 0 <= k < |roots| ==>
      IsScopePath(roots[k]) && !Within(roots[k], d + "/") && !Within(d + "/", roots[k])
    ensures Within(path, d) <==> exists k :: 0 <= k < |roots| && Within(path, roots[k]) && Within(roots[k], d)
  {
    hide Within, IsScopePath;
    var k :| 0 <= k < |roots| && Within(path, roots[k]);
    PassedDenialIff(path, roots[k], d);
    forall m | 0 <= m < |roots| && Within(path, roots[m]) && Within(roots[m], d) ensures Within(path, d) {
      WithinTransitive(path, roots[m], d);
    }
  }

  // ---- The built-in proposer -------------------------------------------------------------------

  /** Every process is driven by the plan itself. */
  ghost predicate BuiltIn(w: World, grants: Grants, processes: seq<Process>)
    decreases |processes|
  {
    processes == [] ||
    (processes[0].answers.proposal == NextOfPlan(w.disk)
     && BuiltIn(Advance(w.(power := processes[0].power), grants, processes[0].answers).world, grants, processes[1..]))
  }

  lemma StageNeverFinishes(w: World, st: State, s: Slice, grants: Grants, ans: Answers)
    requires w.disk.status != DONE && st.status != DONE
    ensures Dispatching(w, st, s, grants, ans).world.disk.status != DONE
    ensures Dispatching(w, st, s, grants, ans).state.status != DONE
  {
    hide CheckWriteApproval, PrepareStage, DispatchStage;
    if st.bound.Some? && Journaled(st, s.sliceId) {
      var prepared := PrepareStage(w, st, s.sliceId, ans);
      PrepareNeverFinishes(w, st, s.sliceId, ans);
      DispatchNeverFinishes(prepared.world, prepared.state, s.sliceId, ans);
    }
  }

  lemma PrepareNeverFinishes(w: World, st: State, id: string, ans: Answers)
    requires w.disk.status != DONE && st.status != DONE && Journaled(st, id)
    ensures
      var r := PrepareStage(w, st, id, ans);
      r.world.disk.status != DONE && r.state.status != DONE && Journaled(r.state, id)
  {
  }

  lemma DispatchNeverFinishes(w: World, st: State, id: string, ans: Answers)
    requires w.disk.status != DONE && st.status != DONE && Journaled(st, id)
    ensures
      var r := DispatchStage(w, st, id, ans);
      r.world.disk.status != DONE && r.state.status != DONE
  {
    hide Strip;
  }

  lemma FailNeverFinishes(w: World, st: State, id: string)
    requires w.disk.status != DONE
    ensures Fail(w, st, id).world.disk.status != DONE
  {
  }

  lemma SettleNeverFinishes(w: World, st: State, s: Slice, handoff: HandoffId, finished: bool, r: RunResult,
      ans: Answers)
    requires w.disk.status != DONE && st.status != DONE
    ensures Settle(w, st, s, handoff, finished, r, ans).world.disk.status != DONE
  {
    hide CheckWriteResult, MissionAcceptancePass;
  }

  lemma SavedOrOld(w: World, st: State)
    ensures Save(w, st).disk == w.disk || Save(w, st).disk == st
  {
  }

  lemma ExecuteNeverFinishes(w: World, st: State, s: Slice, grants: Grants, ans: Answers)
    requires w.disk.status != DONE && st.status != DONE
    ensures Execute(w, st, s, grants, ans).world.disk.status != DONE
  {
    hide BoundDispatch, Settle, Fail, Invoke, Save;
    StageNeverFinishes(w, st, s, grants, ans);
    var r := Dispatching(w, st, s, grants, ans);
    var handoff := if st.bound.Some? then Derived(st.bound.value.mission, st.campaignId, s.sliceId)
                   else Fresh(if ans.dispatched.Some? then ans.dispatched.value else "");
    FailNeverFinishes(r.world, r.state, s.sliceId);
    if ans.report.ResultFound? {
      SettleNeverFinishes(r.world, r.state, s, handoff, ans.report.finished, ans.report.result, ans);
    }
    SavedOrOld(r.world, Stopped(r.state, WAITING, AwaitingResult));
  }

  /** Only an advance without a proposal finishes a campaign, with what it has completed. */
  lemma FinishesOnlyUnproposed(w: World, grants: Grants, ans: Answers)
    requires w.disk.status != DONE && Advance(w, grants, ans).world.disk.status == DONE
    ensures ans.proposal.None? && w.disk.current.None?
    ensures Advance(w, grants, ans).world.disk == Stopped(w.disk, DONE, CompletionRecorded)
  {
    hide Execute, Candidate, CheckWriteApproval;
    var st := w.disk;
    if st.current.Some? {
      ExecuteNeverFinishes(w, st, st.current.value, grants, ans);
    } else if ans.proposal.Some? && Candidate(st, ans.proposal.value).Admitted? {
      var s := Candidate(st, ans.proposal.value).slice;
      var st1 := st.(current := Some(s));
      ExecuteNeverFinishes(Save(w, st1), st1, s, grants, ans);
    }
  }

  lemma {:induction false} DoneMeansCompleteFrom(grants: Grants, w: World, processes: seq<Process>)
    requires Kept(grants, w) && BuiltIn(w, grants, processes)
    requires w.disk.status == DONE ==> |w.disk.completed| == |w.disk.plan|
    ensures
      var last := Run(w, grants, processes).disk;
      last.status == DONE ==> |last.completed| == |last.plan|
    decreases |processes|
  {
    hide Kept, Advance, Productive;
    if processes != [] {
      var w0 := w.(power := processes[0].power);
      var w1 := Advance(w0, grants, processes[0].answers).world;
      PowerIsFree(grants, w, processes[0].power);
      AdvanceKeeps(grants, w0, processes[0].answers);
      NeverBeyondPlan(grants, w1);
      if w0.disk.status != DONE && w1.disk.status == DONE {
        FinishesOnlyUnproposed(w0, grants, processes[0].answers);
      }
      DoneMeansCompleteFrom(grants, w1, processes[1..]);
    }
  }

  lemma NeverBeyondPlan(grants: Grants, w: World)
    requires Kept(grants, w)
    ensures |w.disk.completed| <= |w.disk.plan|
    ensures w.disk.current.Some? ==> |w.disk.completed| < |w.disk.plan|
  {
    hide CallsKept, ProgressKept, JournalKept, Objective, WriteWithin, Granted, SliceId;
  }

  /** With the built-in proposer a campaign is done only when its whole plan is complete. */
  lemma DoneMeansComplete(grants: Grants, req: Request, power: nat, processes: seq<Process>)
    requires Create(req).Some? && BuiltIn(World(Create(req).value, [], power), grants, processes)
    ensures
      var last := Run(World(Create(req).value, [], power), grants, processes).disk;
      last.status == DONE ==> |last.completed| == |req.plan|
  {
    hide Kept, Run, BuiltIn, Strip, IsScopePath;
    CreatedIsKept(grants, req, power);
    RunKeeps(grants, World(Create(req).value, [], power), processes);
    DoneMeansCompleteFrom(grants, World(Create(req).value, [], power), processes);
  }

  /** And a complete, still open campaign is done at its next advance that can save. */
  lemma CompleteBecomesDone(grants: Grants, w: World, ans: Answers)
    requires Kept(grants, w) && w.power > 0 && !IsTerminal(w.disk.status)
    requires w.disk.plan != [] && |w.disk.completed| == |w.disk.plan| && ans.proposal == NextOfPlan(w.disk)
    ensures Advance(w, grants, ans).world.disk.status == DONE && !Advance(w, grants, ans).raised
  {
    hide Kept, Execute, Candidate;
    NeverBeyondPlan(grants, w);
  }

  // ---- The loop --------------------------------------------------------------------------------

  /** The world after `n` advances of one process. */
  function After(w: World, grants: Grants, answers: nat -> Answers, n: nat): World {
    if n == 0 then w else Advance(After(w, grants, answers, n - 1), grants, answers(n - 1)).world
  }

  lemma {:induction false} AfterKeeps(grants: Grants, w: World, answers: nat -> Answers, n: nat)
    requires Kept(grants, w)
    ensures Kept(grants, After(w, grants, answers, n))
    ensures After(w, grants, answers, n).disk.plan == w.disk.plan
  {
    hide Kept, Advance, Productive, JournalLater;
    if n > 0 {
      AfterKeeps(grants, w, answers, n - 1);
      AdvanceKeeps(grants, After(w, grants, answers, n - 1), answers(n - 1));
    }
  }
}
